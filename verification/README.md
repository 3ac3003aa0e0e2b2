# Iknite protocols, verified

Iknite starts a single-node Kubernetes cluster and watches over it. Most of it is glue around
Kubernetes libraries, but it holds a few small protocols and transformations of its own. This Dafny
project models them and proves what they keep over whole runs, for every input and every schedule.

| module | source | what it is |
|---|---|---|
| `CheckGraph`, `CheckSafety`, `CheckMeaning`, `CheckConfluence`, `CheckStatus` | `pkg/check/status_check.go` | the concurrent check executor |
| `CheckPrepare` | `pkg/check/status_check.go` | building results and resolving dependencies by name |
| `IkniteChecks` | `pkg/checkers/phases.go` | the checks iknite really runs |
| `Waiter`, `WaiterProgress` | `pkg/kubewait/resources.go` | the namespace waiter with its settle timer |
| `Polling` | `pkg/utils/wait.go` | `WaitOptions.Poll` |
| `Supervisor` | `pkg/k8s/kubelet.go` | the kubelet supervisor loop |
| `HealthLoops` | `pkg/k8s/config.go`, `pkg/k8s/kubelet.go` | the health retry loops |
| `PhaseTree`, `SkipLists` | `pkg/cmd/init.go` | wrapping the kubeadm workflow; the list of skipped phases |
| `FanOut` | `pkg/utils/hooks.go`, `pkg/kubewait/resources.go` | one goroutine per worker, errors in a buffered channel |
| `EventBus` | `pkg/utils/bus.go` | publish/subscribe |
| `Readiness` | `pkg/k8s/client.go` | the workload readiness counter |
| `SchemaRewrite`, `SchemaInPlace` | `deploy/k8s/hack/openapi2jsonschema.py` | the JSON-schema rewrites, on trees and in place on shared dicts |
| `Paths` | `pkg/secrets/secrets.go` | secret paths and home paths |

How it is modelled:

- A concurrent protocol is a transition system: `Enabled` and `Apply` say when an action can happen and
  what it does, `IsRun` says what a run is, and the theorems quantify over all runs. Each section under a
  mutex, each select branch, each channel operation, each `cancel()` and each timer firing is one atomic
  step; what lies between may interleave freely. Answers of libraries, clocks and the cluster are
  nondeterministic choices in the actions.
- Sequential code that updates variables or fields is a method with a loop or a class, proved against a
  function or predicate about which the properties are proved.
- Functions are used where the source computes values.

What the project found out about the code:

- The comment on `CheckClusterRunning` promises at least `okResponses` good answers. The code does not keep
  this: a nil result only means that the last answer was good. The promise holds exactly for `okResponses` at most 1
  (and, for 1, a positive number of retries), so not for the arguments 10, 3 and 30, 2 that the supervisor passes
  (`HealthLoops.PromiseExactly`).
- An event of a cancelled poll can start the settle timer after a restart, and then the namespace is declared ready
  although the current dataset was never seen ready (`Waiter.StaleEventSettlesUnsoundly`). This is the only way to go
  wrong (`Waiter.SoundExactlyIfStartedSoundly`).
- Acyclic dependencies do not suffice for the executor: sub-results of a skipped phase are never started, and a check that
  depends on one waits until it is cancelled (`CheckConfluence.AcyclicityIsNotEnough`). Exactly when Run returns can be
  worked out from the graph beforehand (`CheckConfluence.ReturnsExactly`). Iknite's own checks are safe
  (`IkniteChecks.ClusterChecksTerminate`).
- In a cancelled run a phase can end with Success over a check whose function was never called
  (`CheckStatus.SuccessOverUnrunCheck`); exactly when is `CheckStatus.SuccessMeansFinishedExactly`.
- An unsubscribe between the snapshot of a `Publish` and its sends makes the send panic
  (`EventBus.UnsubscribeDuringPublishPanics`).
- From the fifth level on, a wrapped phase can record the name of a sibling of its parent
  (`PhaseTree.FifthLevelNames`); for which trees all names are right is `PhaseTree.NamedRightExactly`.
- A dict that a YAML alias puts both under a key and into a list is closed in the list as well, where the pass on a
  tree would leave it open (`SchemaInPlace.InPlaceIsClose`); when this shows in the written schema is
  `SchemaInPlace.InPlaceIsWritten`.

## Model

| member | source | states |
|---|---|---|
| `CheckConfluence.FullRunComputesValue` | pkg/check/status_check.go:145-219 | for every graph, cyclic ones included, an uncancelled maximal run closes Done of a result with status v if and only if v follows from the schedule-free meaning of the graph, and as many rounds of deduction as there are results decide this |
| `CheckConfluence.Confluence` | pkg/check/status_check.go:145-219 | any two uncancelled maximal runs of a graph end in the same state, whatever the interleaving |
| `CheckConfluence.EvalIsValue` | pkg/check/status_check.go:121-219 | on acyclic graphs where no phase has dependencies, the meaning is the simple recursion: Skipped if some dependency is not Success, else Failed if some sub-check is Failed, else Success, or the leaf's own outcome |
| `CheckConfluence.FullRunEvaluates` | pkg/check/status_check.go:355-377 | on such graphs every maximal uncancelled run closes every Done with the evaluated status and CheckExecutor.Run returns |
| `CheckConfluence.ReturnsExactly` | pkg/check/status_check.go:355-377 | for every graph an uncancelled maximal run has returned if and only if that many rounds of deduction give every top-level result a value |
| `CheckConfluence.DeadlockFree` | pkg/check/status_check.go:145-219 | on such graphs every reachable uncancelled state with an open Done has an enabled step |
| `CheckConfluence.RunsAreBounded` | pkg/check/status_check.go:189-219 | in every run, cancelled or not, a non-negative budget decreases with each step, so no run is longer than the budget of the initial state |
| `CheckConfluence.RunCompletes` | pkg/check/status_check.go:189-219 | every uncancelled run of every graph can be continued to a maximal uncancelled one |
| `CheckConfluence.CancelledRunsEnd` | pkg/check/status_check.go:355-377 | for every graph: when a cancelled run can go no further, Run has returned and every started goroutine has closed its Done |
| `CheckConfluence.CanReturnExactly` | pkg/check/status_check.go:355-377 | in every state of every run of every graph, Run can return in the next step, changing no result, if and only if it has not returned, every top-level result is started, and the run is cancelled or every top-level Done was received; it waits for nothing else |
| `CheckConfluence.GoesOnExactly` | pkg/check/status_check.go:145-219 | in every state of every run a started goroutine that has not ended can go on if and only if it waits for no Done, for a closed one, or in a cancelled run; and it can leave a wait with its status as it is if and only if the run is cancelled |
| `CheckConfluence.DoubledValue` | pkg/check/status_check.go:274-280 | listing every dependency twice does not change the meaning of any result |
| `CheckConfluence.DoublingIsHarmless` | pkg/check/status_check.go:274-280 | a maximal run with doubled dependency lists closes the same Done channels with the same statuses as one with single lists |
| `CheckConfluence.SkippedPhaseStrandsDependents` | pkg/check/status_check.go:198-210 | when a phase ends Skipped, a check that gets as far as waiting for one of its sub-checks never finishes, and at top level keeps Run from returning |
| `CheckConfluence.AcyclicityIsNotEnough` | pkg/check/status_check.go:198-210 | a concrete well-formed acyclic graph that has maximal uncancelled runs, in none of which Run returns or the stranded check ends |
| `CheckSafety.AtMostOnce` | pkg/check/status_check.go:121-143 | in every run, cancelled ones included, each check function is called at most once and each Done closed at most once |
| `CheckSafety.StatusMovesForward` | pkg/check/status_check.go:145-219 | between any two moments of any run a status moves only Pending to Skipped, or Pending to Running to Success or Failed, and nothing of a result changes once its Done is closed |
| `CheckSafety.FnRunsAfterDependencies` | pkg/check/status_check.go:189-219 | in every run a check function is called only when all resolved dependencies of the check and of every enclosing phase are Done with Success |
| `CheckSafety.StepInv` | pkg/check/status_check.go:145-219 | every step of every goroutine, of the starting loop and of cancellation keeps the invariant that ties program counters, statuses, waits and started sub-results together |
| `CheckMeaning.EnoughRounds` | pkg/check/status_check.go:145-219 | whatever can be deduced about a result at all can be deduced in as many rounds as there are results |
| `CheckMeaning.StepSound` | pkg/check/status_check.go:145-219 | every uncancelled step keeps the agreement between the state and the schedule-free meaning |
| `CheckStatus.StatusMeans` | pkg/check/status_check.go:121-187 | in every run, cancelled ones included: Skipped only over a Done dependency without success; Success or Failed only over dependencies all Done with success; a leaf then has its function's answer, and a phase has all sub-results Done and is Failed exactly if one of them is |
| `CheckStatus.UnfinishedExactly` | pkg/check/status_check.go:145-176 | in every run a result ends without a final status if and only if its goroutine left a wait because of cancellation |
| `CheckStatus.SuccessMeansFinishedExactly` | pkg/check/status_check.go:163-187 | under a phase that ended with Success all sub-results are Done, and each has a final status if and only if it did not leave a wait because of cancellation |
| `CheckStatus.SuccessOverUnrunCheck` | pkg/check/status_check.go:163-187 | a concrete cancelled run in which a phase ends with Success and its only check ends Pending with its function never called |
| `CheckStatus.OnlyCancelledAborts` | pkg/check/status_check.go:145-176 | a wait is left early only in a cancelled run |
| `CheckPrepare.NewResult` | pkg/check/status_check.go:78-89 | builds fresh, distinct results that mirror the check tree, without dependencies |
| `CheckPrepare.FillResultNameMap` | pkg/check/status_check.go:230-244 | the map afterwards is the old one overwritten by the results in pre-order |
| `CheckPrepare.NamedLooksUpLast` | pkg/check/status_check.go:230-244 | such a map leads every name to the last result of that name in pre-order, and else to what it led to before |
| `CheckPrepare.FillDependencies` | pkg/check/status_check.go:107-119 | appends to each result of the subtree the results its known dependency names lead to, in order, drops unknown names and touches no other result |
| `CheckPrepare.PrepareChecks` | pkg/check/status_check.go:247-259 | fresh results, each depending on the last result in pre-order of each known name |
| `CheckPrepare.CheckExecutor.AddCheck` | pkg/check/status_check.go:282-284 | appends checks and keeps the invariant that the kept map knows only names of current checks |
| `CheckPrepare.CheckExecutor.PrepareRun` | pkg/check/status_check.go:274-280 | after any history of added checks and prepared runs the results are exactly the doubled graph of the current forest: no stale entry of the kept map is used, every resolved dependency occurs exactly twice |
| `CheckPrepare.WiringIsPrepared` | pkg/check/status_check.go:274-280 | results whose dependencies were looked up in two maps that lead to the last result of each name are wired as the doubled graph says |
| `CheckPrepare.GraphOfWellFormed` | pkg/check/status_check.go:78-119 | for every check forest the graph is well formed, so the executor theorems apply |
| `IkniteChecks.BackwardIsAcyclic` | pkg/check/status_check.go:198-210 | a forest whose checks depend only on results that lie wholly before them in pre-order, and whose phases depend on nothing, meets the hypotheses of the executor theorems |
| `IkniteChecks.ForestIsJudged` | pkg/check/status_check.go:121-219 | every maximal uncancelled run of such a forest judges each check by the checks it names and contains: Skipped if one it names did not succeed, else its answer, or for a phase Failed exactly if a sub-check is |
| `IkniteChecks.ClusterIsBackward` | pkg/checkers/phases.go:14-149 | iknite's forest of checks is of this kind for both values of UseEtcd |
| `IkniteChecks.ClusterChecksTerminate` | pkg/checkers/phases.go:140-149 | for both API backends and all answers of the 28 check functions, every maximal uncancelled run of the 32 results closes every Done with the evaluated status and returns |
| `IkniteChecks.ClusterVerdicts` | pkg/checkers/phases.go:111-149 | in every such run which runtime check is skipped because of which other, what the runtime phase ends with, and that the workloads are looked at exactly if all eight runtime checks answer well |
| `Waiter.OnePendingTimer` | pkg/kubewait/resources.go:287-311 | in every interleaving at most one settle timer is pending, and it is the stored one |
| `Waiter.OneLivePoll` | pkg/kubewait/resources.go:339-396 | in every interleaving at most one poll context is uncancelled |
| `Waiter.FirstReportWins` | pkg/kubewait/resources.go:331-337 | reportDone never blocks, a reported outcome can be taken while waitNamespaceResources waits, and what it takes is the first one reported |
| `Waiter.ReadyMeansQuiet` | pkg/kubewait/resources.go:471-502 | in every interleaving, if the namespace is declared ready a timer has fired; and every timer that fired began on an all-Current event or an empty dataset and until it fired saw no restart and no other event |
| `Waiter.CalmRunsSettleSoundly` | pkg/kubewait/resources.go:407-426 | if no event of a cancelled poll starts a timer and none starts one during a restart, a firing timer is about the dataset in force and saw no restart and no non-Current event since it began |
| `Waiter.ReadyIsSound` | pkg/kubewait/resources.go:583-603 | under the same hypothesis a namespace is declared ready only after a timer fired that was about the dataset in force when it fired, and quiet since it began |
| `Waiter.SoundExactlyIfStartedSoundly` | pkg/kubewait/resources.go:287-311 | in every interleaving a firing timer is about the dataset in force if and only if it was not started by an event of a poll of another dataset than the one in force at that moment; and if it was, that poll had been cancelled |
| `Waiter.RunInForce` | pkg/kubewait/resources.go:407-426 | in every interleaving a poll that is not cancelled is a poll of the dataset in force |
| `Waiter.StaleEventSettlesUnsoundly` | pkg/kubewait/resources.go:471-502 | without that hypothesis the claim fails, for any two different non-empty datasets: a complete run that ends ready without one event of the current poll |
| `WaiterProgress.TimerExactly` | pkg/kubewait/resources.go:287-311 | in every interleaving a settle timer is stored if and only if there was an all-Current event or the start of a timer and since then no restart and no other event; and then it is pending or has fired |
| `WaiterProgress.EmptyDataSetHasTimer` | pkg/kubewait/resources.go:407-426 | in every interleaving, after Start, with an empty current dataset and no restart under way, there was a restart; and unless an event came since that was not all-Current, a timer started since the last restart is pending or has fired, for the empty dataset if there was no event at all |
| `WaiterProgress.TimerLeadsToReady` | pkg/kubewait/resources.go:331-337 | in every interleaving, while the wait lasts and nothing was sent, a stored timer can bring it to its end with success within five steps |
| `WaiterProgress.EmptyNamespaceBecomesReady` | pkg/kubewait/resources.go:407-426 | so a namespace without resources can be declared ready from wherever a run has got to, unless an outcome was sent or a non-Current event came in since the last restart |
| `WaiterProgress.DataSetIsPolled` | pkg/kubewait/resources.go:339-396 | in every interleaving, while no restart is under way, a dataset that is not empty has exactly one uncancelled poll, launched and of that dataset; for an empty one every poll is cancelled |
| `WaiterProgress.CurrentIsLastAnswer` | pkg/kubewait/resources.go:428-469 | in every interleaving the current dataset is the last answer of the API whenever Start or the watcher has dealt with it, a restart is for the last answer, and the watcher restarts only for an answer that differs |
| `WaiterProgress.ReportersExactly` | pkg/kubewait/resources.go:331-337 | in every interleaving the callers of reportDone are, in order, the fired timers, the failed polls and the failed refreshes of the watcher, each with its own outcome; the outcomes sent are those of the callers that are through |
| `WaiterProgress.EventsAreProcessed` | pkg/kubewait/resources.go:471-502 | in every interleaving each event of a poll is processed once, in order and with what it said |
| `WaiterProgress.CanEndExactly` | pkg/kubewait/resources.go:583-603 | in every interleaving the wait can end in the next step with an outcome if and only if that was the first one sent, with the end of the context if and only if it has ended, and with a failure of Start only at its beginning |
| `WaiterProgress.RestartAndTimersGoOn` | pkg/kubewait/resources.go:287-426 | in every interleaving a restart under way can go on, a pending timer can fire and the context can end |
| `WaiterProgress.ListenersGoOn` | pkg/kubewait/resources.go:370-396 | in every interleaving the listener of a launched poll, cancelled or not, can take up an event that says anything if it is idle and else go on with its event; and the poll can fail with any error |
| `WaiterProgress.WatcherGoesOn` | pkg/kubewait/resources.go:428-469 | in every interleaving the sleeping watcher can get any dataset, or an error that it reports before it ends; with an answer it goes back to sleep if and only if that is the current dataset, and else to the restart |
| `WaiterProgress.WatchCancelExactly` | pkg/kubewait/resources.go:319-337 | in every interleaving the cancel function of the watch context is stored, or held by a caller of reportDone, or called, once there is a watcher and never before |
| `WaiterProgress.ReportEndsWatching` | pkg/kubewait/resources.go:319-337 | in every interleaving, once a caller of reportDone has begun with the watcher started, the watch context is cancelled as soon as no caller is about to cancel it, nothing but reportDone cancels it, and from then on no restart begins |
| `WaiterProgress.WatcherRestartsExactly` | pkg/kubewait/resources.go:428-469 | in every interleaving the watcher that has found another dataset can restart with it if and only if neither context has ended |
| `Polling.WaitOptions.Validate` | pkg/utils/wait.go:111-125 | refuses watch with wait; otherwise sets the timeout to 0 if either is on and changes nothing else |
| `Polling.WaitOptions.Poll` | pkg/utils/wait.go:127-213 | without watch, wait and a positive timeout the condition is asked once; with one of them the stack of closures refines a predicate over the trace of answers, for every condition, all options and every moment of cancellation; the condition is never asked again once max(1, Retries) errors have occurred, and a watch never returns nil |
| `Polling.PollStack.Evaluate` | pkg/utils/wait.go:154-207 | one evaluation of the stacked closures, from the trace so far: the budget and the success counter are functions of the trace |
| `Polling.NilExactly` | pkg/utils/wait.go:144-213 | a looping poll returns nil if and only if some prefix of the answers before cancellation wins, and then at the first such prefix |
| `Polling.WinsExactly` | pkg/utils/wait.go:154-207 | for every condition, a prefix wins exactly if it is no watch, the last max(1, OkResponses) answers are successes and fewer than max(1, Retries) errors came before the last |
| `Polling.PlainWins` | pkg/utils/wait.go:187-207 | for conditions that never say true with an error, a prefix wins exactly if it is no watch, the last max(1, OkResponses) answers are true and there were fewer than max(1, Retries) errors in all |
| `Polling.TrueWithErrorWins` | pkg/utils/wait.go:154-169 | for every prefix that ends in true with an error: it wins if and only if it is no watch, the last max(1, OkResponses) answers are true and the errors, this one included, do not exceed Retries; so never without a retry budget |
| `Polling.PollSpecIsFunctional` | pkg/utils/wait.go:144-213 | the specification determines the outcome and the number of calls |
| `Polling.StreakIsSuffix` | pkg/utils/wait.go:187-207 | the success counter reaches k exactly if the last k answers are successes |
| `Polling.LastErrorIsLast` | pkg/utils/wait.go:154-169 | the error reported when the retries are used up is that of the last answer with an error, and there is one exactly if there was such an answer |
| `Supervisor.Staging` | pkg/k8s/kubelet.go:180-202 | in every run API-server checking starts at most once and exactly after a healthy kubelet verdict, Kustomize at most once and exactly after a healthy API-server verdict |
| `Supervisor.SendersNeverBlock` | pkg/k8s/kubelet.go:158-201 | in every run each channel gets at most one send, and a goroutine can always send, also when nobody listens any more |
| `Supervisor.LoopIsShort` | pkg/k8s/kubelet.go:171-215 | the loop handles at most four events; and while it goes on it can handle the end of the context and every verdict sent and not yet received, whatever TerminateProcess answers |
| `Supervisor.RunsAreBounded` | pkg/k8s/kubelet.go:143-222 | no run, with all sends, cancellation and handled events, is longer than eleven steps |
| `Supervisor.RunsReturn` | pkg/k8s/kubelet.go:171-221 | until it has returned, a run can make a step other than a cancellation; and once the process or the context has ended, one that is no send either, so every maximal run returns |
| `Supervisor.ReturnMeans` | pkg/k8s/kubelet.go:153-221 | over the actions of every run: RemovePidFile runs exactly once after a successful start and not otherwise; the result is an error exactly if the start failed, TerminateProcess failed at the end of the context or on a bad kubelet or API-server verdict, or Kustomize's verdict was bad; and a run returns only through one of the events that end it |
| `Supervisor.VerdictsAreSent` | pkg/k8s/kubelet.go:158-201 | in every run the verdict that waits in a channel or was received from it is exactly the one its goroutine sent |
| `HealthLoops.CheckClusterRunning` | pkg/k8s/config.go:149-196 | uncancelled, the attempts are the smaller of retries and the position of the okResponses-th good answer, and the result is that of the last attempt; cancelled, it stopped at a wait that was cut short, before that position |
| `HealthLoops.CheckServerRunning` | pkg/k8s/kubelet.go:224-291 | the same without cancellation, for all ways in which an HTTP exchange can fail |
| `HealthLoops.JudgedGood` | pkg/k8s/kubelet.go:258-285 | an HTTP exchange is good if and only if it answered with status 200 and the expected body |
| `HealthLoops.TriedIsFunctional` | pkg/k8s/config.go:149-196 | the specification of the loops determines verdict and number of attempts |
| `HealthLoops.PromiseExactly` | pkg/k8s/config.go:145-148 | nil implies okResponses good answers, for all servers, if and only if okResponses is at most 0, or 1 with positive retries |
| `PhaseTree.Append` | pkg/cmd/init.go:649-649 | for every way of growing, append to a slice gives a slice with the old contents and the new element, in place or in a new array |
| `PhaseTree.PhaseNameIsJoin` | pkg/cmd/init.go:607-617 | PhaseName is the slash-joined contents of the parent slice and the name |
| `PhaseTree.WrappingPreservesRuns` | pkg/cmd/init.go:620-658 | for every tree and every set of skipped phases the wrapped tree performs the original runs in the original order, each with exactly one status update before it, carrying the wrapping state |
| `PhaseTree.FailuresStopAlike` | pkg/cmd/init.go:620-658 | for the whole workflow: whichever runs fail, whatever RunIf says and whichever phases are skipped, exactly the runs the original would perform before it stops are performed, in order, with nothing else but one update just before each, and the states of these updates never go back |
| `PhaseTree.ExactNames` | pkg/cmd/init.go:620-658 | for every tree, however deep, and every way slices grow, exactly which name each wrapped run records, given that slices share arrays |
| `PhaseTree.FourLevelsAreNamedRight` | pkg/cmd/init.go:647-653 | on trees at most four levels deep every recorded name is the slash-joined path, if slices grow to capacity 1 and then 2 |
| `PhaseTree.NamedRightExactly` | pkg/cmd/init.go:620-658 | for every tree, set of skipped phases and way of growing: all recorded names are the slash-joined paths if at every run performed the shared cells still hold the path, and, names being free of slashes, only if |
| `PhaseTree.FifthLevelNames` | pkg/cmd/init.go:647-653 | a whole five-level tree, wrapped: the run in one group records a name in the last group beside it, so the names are right if and only if the two groups have the same name |
| `PhaseTree.WorkflowStates` | pkg/cmd/init.go:113-152 | a workflow wrapped with ascending states records only these states and never goes back, for any set of skipped phases |
| `PhaseTree.InitStatesNeverGoBack` | pkg/cmd/init.go:113-152 | the states recorded by the init workflow never decrease and are never stable, for any set of skipped phases |
| `SkipLists.SkipList.SkipPhaseIfExists` | pkg/cmd/init.go:317-332 | the name is appended exactly once if some phase has it as its full name, else nothing changes |
| `SkipLists.PathHasName` | pkg/cmd/init.go:317-332 | the slash-joined path of every phase of the tree is among the names looked at |
| `SkipLists.NameHasPath` | pkg/cmd/init.go:317-332 | every name looked at is the slash-joined path of some phase |
| `SkipLists.ClusterConfiguration.ManageSkippedAddons` | pkg/cmd/init.go:577-605 | an addon is afterwards disabled exactly if it is skipped, and it is if it was disabled or skipped before; the list grows only at its end |
| `SkipLists.ClusterConfiguration.ManageTwice` | pkg/cmd/init.go:577-605 | a second call changes nothing |
| `SkipLists.InitSkips` | pkg/cmd/init.go:284-303 | given names stay, the unused backend is skipped if it is a phase, the used one only if asked for, CoreDNS is disabled if it is a phase, and addon flags and list agree |
| `FanOut.SendersNeverBlock` | pkg/utils/hooks.go:39-64 | for any number of workers and any interleaving no worker waits for room in the error channel or sends after its close, and none runs twice |
| `FanOut.WorkersGoOnExactly` | pkg/utils/hooks.go:39-64 | in every interleaving a worker can go on, whatever the others do, if and only if it is started and has not left, or is the next to be started |
| `FanOut.DeadlockFree` | pkg/kubewait/resources.go:156-175 | something can move until the result is returned; waiting before draining cannot deadlock |
| `FanOut.CollectsAllErrors` | pkg/utils/hooks.go:39-64 | at return every worker ran exactly once, the collected errors are the workers' errors as a multiset, and there is none iff all succeeded |
| `FanOut.RunsAreBounded` | pkg/utils/hooks.go:39-64 | no run with n workers is longer than 5 n + 3 steps |
| `EventBus.BusSafety` | pkg/utils/bus.go:21-41 | in every interleaving ids never collide, a channel in the map is open, no channel is closed twice and at most its capacity of events wait in it |
| `EventBus.PanicIffUnsubscribed` | pkg/utils/bus.go:52-66 | in every interleaving a send of Publish panics exactly if its channel has left the map since the snapshot |
| `EventBus.DeliversSubsequence` | pkg/utils/bus.go:52-66 | with one Publish at a time and no unsubscribe between a snapshot and its sends: no panic, no blocking, and every subscriber, with or without a buffer, receives a subsequence of the published events |
| `EventBus.NothingLostWhileRoom` | pkg/utils/bus.go:52-66 | under the same hypotheses a subscriber whose channel has room or a blocked receiver whenever it is offered an event has got every event published since it entered the map, in order |
| `EventBus.ReceiversAreServed` | pkg/utils/bus.go:21-66 | conservation in every interleaving: whoever came to an open channel to receive has got an event or is blocked, every event sent was got or waits, capacities are those asked for, and as long as nothing has panicked an event that waits can be received next, also after the close |
| `EventBus.NobodyWaits` | pkg/utils/bus.go:21-66 | in every interleaving without a panic, whatever else is going on, any event can be published, a subscription under way can go on, a subscriber can leave, and a Publish call can make its next attempt to send |
| `EventBus.UnsubscribeDuringPublishPanics` | pkg/utils/bus.go:21-66 | a concrete run in which such an unsubscribe makes Publish panic |
| `Readiness.Counter.Call` | pkg/k8s/client.go:417-453 | over any sequence of calls iteration counts the earlier calls without error, okIterations is the current streak of all-ready calls, and error calls neither extend nor reset it |
| `Readiness.ThoseInOrder` | pkg/k8s/client.go:423-432 | ready and unready are an order-preserving partition of the states |
| `SchemaRewrite.CloseIdempotent` | deploy/k8s/hack/openapi2jsonschema.py:31-39 | the closing pass is idempotent on every tree, with or without skipping the root |
| `SchemaRewrite.ReplaceIdempotent` | deploy/k8s/hack/openapi2jsonschema.py:51-70 | the int-or-string pass is idempotent on every tree |
| `SchemaRewrite.PassesCommute` | deploy/k8s/hack/openapi2jsonschema.py:108-109 | the two passes commute on every tree |
| `SchemaRewrite.WrittenIsStable` | deploy/k8s/hack/openapi2jsonschema.py:108-109 | writing a written schema again changes nothing |
| `SchemaRewrite.CloseAt` | deploy/k8s/hack/openapi2jsonschema.py:31-39 | path by path: every value stays where it was, itself closed, so no additionalProperties is overwritten; the only new paths lead to false in a dict that was open |
| `SchemaRewrite.ClosedKeys` | deploy/k8s/hack/openapi2jsonschema.py:31-39 | a dict keeps its keys in order and gets additionalProperties at the end exactly if it has properties, lacks it and is not skipped; any other value is as it was |
| `SchemaRewrite.ReplaceAt` | deploy/k8s/hack/openapi2jsonschema.py:51-70 | path by path through keys and list places, outside replaced dicts: nothing appears or disappears, dicts keep their keys in order, lists their lengths, other values stay as they are; a dict that is a dict value with format int-or-string becomes exactly the oneOf of string and integer; below a list in a list nothing changes |
| `SchemaRewrite.WrittenIsClosed` | deploy/k8s/hack/openapi2jsonschema.py:105-110 | in a written schema no dict reached through dict values has properties without additionalProperties, except a skipped root, and none but the root has format int-or-string |
| `SchemaRewrite.ReplaceIntOrString` | deploy/k8s/hack/openapi2jsonschema.py:51-70 | the loops that rebuild dicts and lists compute the int-or-string pass |
| `SchemaInPlace.AdditionalProperties` | deploy/k8s/hack/openapi2jsonschema.py:31-39 | in place, on any cycle-free dicts, shared or not: exactly the dicts reached through dict values are closed, a skipped root excepted, and no other dict changes |
| `SchemaInPlace.InPlaceIsClose` | deploy/k8s/hack/openapi2jsonschema.py:31-39 | the result looks like the pass on the tree if and only if no open dict is reached both through dict values and in a list |
| `SchemaInPlace.InPlaceIsWritten` | deploy/k8s/hack/openapi2jsonschema.py:105-110 | the schema written after the update in place is the one described on trees if and only if no open dict is shared in this way where it shows, dicts replaced as int-or-string hiding what is in them |
| `SchemaInPlace.HiddenSharing` | deploy/k8s/hack/openapi2jsonschema.py:51-70 | a concrete sharing that the second condition allows and the first does not |
| `SchemaInPlace.SharedDict` | deploy/k8s/hack/openapi2jsonschema.py:31-39 | a concrete shared dict for which the two differ |
| `Paths.BuildSecretsPath` | pkg/secrets/secrets.go:379-396 | an error exactly if some dot-separated part is blank, else "data" followed by the trimmed parts |
| `Paths.TrimCuts` | pkg/secrets/secrets.go:379-396 | trimming cuts off white space at both ends and nothing else, until both ends are bare |
| `Paths.SecretsPathRoundTrip` | pkg/secrets/secrets.go:379-396 | joining the parts gives the path back if and only if every part was trimmed already, and the joined parts are always a path with the same parts |
| `Paths.HomePathRoundTrip` | pkg/secrets/secrets.go:488-514 | for every absolute home and path, expandHomePath of displayPath is the path, cleaned if it lies below home, so a clean path comes back; and a path is abbreviated exactly if it lies below home or is home |
| `Paths.ShownBelow` | pkg/secrets/secrets.go:501-514 | a path below home is shown as `~/` and the rest of its words |

## Left out

- The concurrent protocols (executor, waiter, supervisor, fan-out, bus) are transition systems on values, not classes with goroutines: Dafny has no concurrency, so their fields and channels are parts of a state value.
- Real time: intervals, timeouts and timer durations are nondeterministic steps. `WaitOptions.Timeout` appears only as a possible cancellation.
- Library behaviour: the poller of apimachinery is a loop that evaluates until done, error or cancellation; the kubeadm runner performs phases in pre-order and skips a phase with everything below it; the aggregate status of kstatus is Current iff all resources are.
- PhaseTree.FourLevelsAreNamedRight: Go's capacities for small slices (1, 2, 4) are a hypothesis, since Go may round a capacity up to an allocation size class; the exact theorems hold for every rule.
- PhaseTree.WrappingPreservesRuns: RunIf is left to FailuresStopAlike, where its answer is given for each run; an error from RunIf is not modelled. That the update comes before the run is the order of `Effects`, as in the closure.
- SkipLists.SkipList.SkipPhaseIfExists: the skip list is a value; that it may share its array with the configuration's list is not modelled.
- The bus counter's wrap-around after 2^64 subscriptions.
- Errors and messages as text: an error is present or absent, or a number where a property has to identify it. Whether HookManager.Run runs hooks registered while it runs is not modelled.
- HealthLoops.CheckClusterRunning: whether an answer is good (no request error, trimmed body `ok`) is an input.
- TerminateProcess with a nil process, StartAndConfigureKubelet with a nil runtime, and panics other than those of the bus.
- SchemaInPlace.AdditionalProperties: dicts that contain themselves, on which the recursion of the original does not end; keys that are not strings.
- `allow_null_optional_fields` and the rest of the schema script: conversion of files.
- Paths.HomePathRoundTrip: relative homes and paths, for which reading a displayed path need not give it back (a relative path may begin with `~/`), and Windows paths.
- The sorting of workload states, the status server, result formatting, command-line flags, logging, SOPS, PKI, host adapters and everything that calls Kubernetes, kubeadm or kustomize: plumbing without state of its own.
