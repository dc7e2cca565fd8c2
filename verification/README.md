# Verification of Concave's high availability

Concave puts a leader and warm followers around a database with a single writer. This project
models the parts whose correctness lies in how they interleave, and proves properties of every
run of them. To verify it, run `dafny verify dfyconfig.toml` with Dafny 4.11.

The models of concurrent behaviour are step systems. A step that is not enabled changes
nothing, so a run is any sequence of steps, in any interleaving, and a theorem about `Run`
holds for every reachable state. Code that works in place is modelled by classes and loops that
are proved to do exactly what the specification functions of those step systems say. What those
functions mean is proved apart from them, in the terms of the design: for the decision in
`DecisionMeaning`, for the replayed documents in `Tailer`, and next to each of the others.

- **Election** (`Decide`, `DecideOrder`, `DecisionMeaning`, `Controller`, `ElectionSystem`, `ElectionShape`,
  `ElectionCauses`, `SerialPromotions`, `TransitionFreeze`, `PromotionSafety`, `Hysteresis`,
  `IncumbentGrace`, `Rotation`, `Failback`). The reconcile loop polls the backends, decides, and
  starts actuation goroutines that write back into the state the loop reads. The loop is cut
  where it releases the lock; goroutines answer and release at any later step. Time is a natural
  number that never decreases, and discovered pods have distinct names.
- **Leases, replay and handoff** (`Roles`, `Tailer`, `Cluster`, `Fencing`, `Handoff`,
  `Failover`). Backends share one lease row and one log. They steal the lease, commit under it,
  tail the log, reload, and hand off at promotion, while the election decides on answers of any
  age and its requests arrive at any time and more than once. The election's decision is the one
  proved above, so fencing holds end to end.
- **Leader distribution** (`LeaderRegistry`, `Streams`, `Tracker`, `Agreement`). A versioned
  registry feeds one-slot channels; an edge filters what a stream and a poll bring it by epoch
  and version, across restarts of the registry.
- **Queues and retries** (`Coalesce`, `Forwarder`, `Retry`, `Insights`, `InsightsReport`). The usage forwarder, the
  retry loop of remote functions, and the ring and aggregates of Insights.

Two promises have exceptions. Each is stated with the exact condition under which it holds, and
with a run in which it fails.

- A promotion is frozen while another pod may be in transition, except that a poll which misses a
  pod at the very instant at which the pod's transition is recorded does not count it. With polls
  at strictly increasing times that is the only exception (`PromotionSafety.FrozenExactly`), and it
  occurs (`PromotionSafety.EqualInstantsOverlap`).
- A follower's snapshot is the fold of the log up to its tailed time, and stays so: while it tails
  (`Failover.FollowerRefines`), and in the final fast-forward while it holds the lease
  (`Failover.HolderRefines`). Once the lease is stolen, the new leader can break it exactly if a
  timestamp is free between the frozen prefix and the tailed time (`Failover.FoldBreaksExactly`),
  and it can be (`Failover.StolenLeaseMissesWrites`).

At-most-once execution is promised for actions and proved for them; `Retry.MutationsMayRunTwice`
shows that it is particular to them.

## Model

| member | source | states |
|---|---|---|
| `Decide.ClaimedLeaders` | router/bigbrain/election/decide.go:42-50 | the loop returns exactly the live claims, in poll order |
| `Decide.PickLeader` | router/bigbrain/election/decide.go:82-90 | the scan returns the choice that `ChoosesTheNewestLease` describes |
| `Decide.BestCandidate` | router/bigbrain/election/decide.go:112-124 | the loop over promotable pods returns the choice that `ChoosesTheOneDue` describes |
| `Decide.BestFailbackCandidate` | router/bigbrain/election/decide.go:225-247 | the loop returns the choice that `ChoosesTheBestOutranking` describes |
| `Decide.EvaluateFailback` | router/bigbrain/election/decide.go:202-223 | clock inherited for the same pod and restart count, target only once the window has passed |
| `Decide.DecideTick` | router/bigbrain/election/decide.go:160-190 | the imperative decision equals the specification that all election theorems are about |
| `DecisionMeaning.PromotesTheOneDue` | router/bigbrain/election/decide.go:160-176 | a leaderless tick promotes a pod if and only if it is a warm standby, nobody leads or is in transition, and of all standbys it is the one due: least recently attempted, then of highest priority, then with the newest snapshot, then first by name |
| `DecisionMeaning.FailsBackToTheBest` | router/bigbrain/election/decide.go:184-247 | a tick fails back to a pod if and only if failback is enabled, one pod leads, nobody is in transition, the pod is the most preferred of those that outrank the leader and lag little enough, and its window is over |
| `DecisionMeaning.ElectsTheNewestLease` | router/bigbrain/election/decide.go:160-183 | if nobody leads, nobody is elected or demoted; otherwise the newest lease is elected and everyone else who leads is demoted once, by name, URL and lease shown |
| `DecisionMeaning.ReportsTheRest` | router/bigbrain/election/decide.go:161-168 | exactly when a decision reports a transition, or an incumbent that was not reached |
| `DecisionMeaning.KeepsTheClock` | router/bigbrain/election/decide.go:192-223 | the failback clock that a decision keeps, starts or drops, in every case |
| `DecisionMeaning.ChoosesTheOneDue` | router/bigbrain/election/decide.go:112-143 | the choice among standbys, said of the observations alone |
| `DecisionMeaning.ChoosesTheNewestLease` | router/bigbrain/election/decide.go:82-110 | the choice among those who lead, said of the observations alone |
| `DecisionMeaning.ChoosesTheBestOutranking` | router/bigbrain/election/decide.go:225-254 | the choice among failback candidates, said of the observations alone |
| `DecisionMeaning.LessIsNameBefore` | router/bigbrain/election/decide.go:101-141 | names are compared character by character |
| `DecideOrder.RankingStrict` | router/bigbrain/election/decide.go:92-143 | none of the three comparisons ever holds both ways |
| `DecideOrder.RankingTransitive` | router/bigbrain/election/decide.go:92-143 | all three comparisons are transitive |
| `DecideOrder.RankingTotal` | router/bigbrain/election/decide.go:92-143 | of two distinct pods, each comparison always prefers one |
| `DecideOrder.BestIsTop` | router/bigbrain/election/decide.go:82-124 | the scan finds the one observation that beats all others |
| `DecideOrder.ChoiceExact` | router/bigbrain/election/decide.go:112-124 | an observation is chosen if and only if it is kept and beats every other kept one; nothing is chosen if and only if nothing is kept |
| `DecideOrder.DecisionOrderFree` | router/bigbrain/election/decide.go:160-190 | every permutation of the observations gives the same leader, promote target, failback result and, as a multiset, demotions |
| `DecideOrder.ClaimsPartition` | router/bigbrain/election/decide.go:160-183 | live claims are exactly the leader and the demotions, without overlap, each demoted once, the leader beating all of them |
| `DecideOrder.PromotionExact` | router/bigbrain/election/decide.go:166-176 | the promote target is a promotable pod before all others, and there is one exactly without live claims and transitions |
| `DecideOrder.FailbackExact` | router/bigbrain/election/decide.go:184-189 | the failback target is a candidate before all others, and there is one exactly with a single live claim, no transition and a clock that has run out |
| `DecideOrder.IncumbentUnreachableExact` | router/bigbrain/election/decide.go:70-80 | the incumbent counts as silent if and only if some discovered, unreachable pod has its name |
| `Controller.Deployment.RememberTransitions` | router/bigbrain/election/election.go:208-230 | memory and observations after the call: expired entries dropped, sightings refreshed, settled pods forgotten, unreachable pods annotated |
| `ElectionShape.RemembersExactly` | router/bigbrain/election/election.go:208-230 | what the memory holds of a polled pod afterwards, and what the poll is told of it, case by case |
| `ElectionShape.ForgetsOnlyExpired` | router/bigbrain/election/election.go:211-215 | the memory of a pod that was not discovered only expires |
| `Controller.Deployment.SetLeader` | router/bigbrain/election/act.go:181-193 | incumbent and published leader are set, and nothing else |
| `Controller.Deployment.ActOnEmptyDiscovery` | router/bigbrain/election/act.go:55-69 | the leader is cleared exactly from the debounce on |
| `Controller.Deployment.ActWhenLeaderless` | router/bigbrain/election/act.go:71-115 | exactly when a promotion starts, and the whole state whether it does or not |
| `Controller.Deployment.FailBack` | router/bigbrain/election/act.go:33-53 | a failback starts under the guard of every promotion, and restarts its clock |
| `Controller.Deployment.DemoteAll` | router/bigbrain/election/act.go:142-173 | demotions start exactly if there are any and none are running |
| `Controller.Deployment.CommitState` | router/bigbrain/election/election.go:260-289 | the whole new state and the three returned values, in terms of the old state and the decision |
| `Controller.Deployment.SetDiscoveryDown` | router/bigbrain/election/election.go:195-206 | a failed discovery forgets the failback candidate and nothing else |
| `Controller.Deployment.TryAcquirePromote` | router/bigbrain/election/act.go:205-218 | acquired if and only if no promotion runs and no remembered transition is newer than the poll |
| `Controller.Deployment.FinishPromotion` | router/bigbrain/election/act.go:117-140 | the pod is remembered as possibly mid-promotion exactly after 200, 202 or a request that was sent without an answer; then the promotion is released |
| `Controller.Deployment.ActOn` | router/bigbrain/election/act.go:9-31 | the state and the goroutines started by one act, in terms of the state before |
| `Controller.Deployment.Reconcile` | router/bigbrain/election/election.go:153-193 | one whole reconcile equals its specification |
| `Controller.LeaderlessEffect` | router/bigbrain/election/act.go:71-115 | a leaderless tick clears the leader and promotes together or not at all, and never touches the memory of transitions |
| `ElectionShape.LeaderfulTickStarts` | router/bigbrain/election/act.go:22-30 | a tick with a leader publishes it and starts demoting all the others unless demotions are running |
| `ElectionShape.LeaderlessTickStarts` | router/bigbrain/election/act.go:80-114 | a leaderless tick starts a promotion exactly past the streak, with nobody retained, a target, no promotion running and no newer transition known |
| `ElectionShape.FailbackStarts` | router/bigbrain/election/act.go:33-53 | a failback starts exactly if no promotion is running and no newer transition is known |
| `ElectionShape.UndisturbedFinish` | router/bigbrain/election/act.go:117-140 | run without interference, answer and release do what the end of the goroutine does |
| `ElectionShape.UndisturbedTick` | router/bigbrain/election/election.go:153-193 | run without interference, the interleavable steps of a tick do what the whole reconcile does |
| `SerialPromotions.PromotionsNeverOverlap` | router/bigbrain/election/act.go:101-140 | in every interleaving at most one promotion runs, and each is released before the next is issued |
| `PromotionSafety.PromotionsAreFresh` | router/bigbrain/election/act.go:101-140 | after a promotion was accepted or sent, every later one is decided from a poll that started no earlier than the recording of that outcome |
| `PromotionSafety.AnswersBindLaterPromotions` | router/bigbrain/election/act.go:117-140 | once a promote request was answered with 200 or 202, or sent and not answered, at time c, every later promotion is decided from a poll that started no earlier than c |
| `PromotionSafety.AnswerMarks` | router/bigbrain/election/act.go:117-140 | exactly those answers mark the pod, at that moment |
| `PromotionSafety.NoPromotionOverTransition` | router/bigbrain/election/election.go:208-243 | no promotion, leaderless or failback, is issued over a transition of a discovered pod whose grace has not passed and that no poll in between saw settled |
| `PromotionSafety.FrozenExactly` | router/bigbrain/election/election.go:208-243 | when polls start at strictly increasing times, a transition known at a promotion is over by its poll if and only if it was recorded before the poll, or the poll reached the pod, or there is no grace |
| `PromotionSafety.RunFromPolls` | router/bigbrain/election/election.go:171-193 | every promotion was issued from a poll on record, the one its tick decided on |
| `PromotionSafety.EqualInstantsOverlap` | router/bigbrain/election/act.go:205-218 | a run in which a transition is recorded at the instant of a poll that misses the pod, and another pod is promoted from that poll |
| `TransitionFreeze.RunFrozen` | router/bigbrain/election/election.go:208-243 | the memory accounts for every transition ever marked or seen, in every reachable state |
| `ElectionCauses.RunCaused` | router/bigbrain/election/act.go:33-115 | every promotion and every clearing of the leader is tied to the tick that asked for it |
| `ElectionCauses.PublishedChanges` | router/bigbrain/election/act.go:55-115 | what the registry is told changes only to the leader a tick elected, or to nobody by a recorded clearing |
| `Hysteresis.NothingShortOfStreak` | router/bigbrain/election/election.go:260-278 | leaderless promotions and clearings happen only past the exact counts of leaderless ticks or consecutive empty discoveries |
| `Hysteresis.CountCommit` | router/bigbrain/election/election.go:260-278 | one commit moves both counters exactly as the recorded ticks say |
| `Hysteresis.CountFailure` | router/bigbrain/election/election.go:162-167 | a failed discovery moves neither counter |
| `IncumbentGrace.SilentIncumbentKept` | router/bigbrain/election/election.go:279-289 | a silent tick belongs to one silence, whose first tick, incumbent and end are spelled out; it retains the incumbent exactly while that silence is younger than the grace, and then nothing is promoted or cleared; empty and failed discoveries do not restart it |
| `Rotation.PromotionsRotate` | router/bigbrain/election/decide.go:112-143 | with at most N pods, a pod promotable throughout N consecutive promotions of a leaderless stretch, polled at strictly increasing times, is promoted by one of them |
| `Rotation.NoPromotionRepeats` | router/bigbrain/election/act.go:101-106 | no pod is promoted twice in a stretch, polled at strictly increasing times, before every other pod promotable at that time has been tried in between |
| `Failback.FailbacksWaitAndSpace` | router/bigbrain/election/decide.go:192-247 | a failback fires only a whole window after its clock started, with its pod eligible at every reconcile from the one that started the clock on; two failbacks are at least a window apart |
| `Failback.CandidateEligible` | router/bigbrain/election/decide.go:202-223 | a candidate named by a decision is eligible at that very tick |
| `Roles.LeaseTable.Acquire` | backend/patches/backend/11-lease-primitive.patch:193-217 | the row becomes the later of the clock and one past the old row, so every lease is newer than all before it; it fails only on a missing or refused read-only row |
| `Roles.LeaseTable.Held` | backend/patches/backend/11-lease-primitive.patch:99-133 | a lease is held if and only if the row still shows it |
| `Roles.RoleState.BeginPromotion` | backend/patches/backend/04-ha-leadership-routing.patch:302-311 | only a follower starts a promotion; otherwise the role is untouched and the answer says why |
| `Roles.RoleState.LeaseAcquired` | backend/patches/backend/04-ha-leadership-routing.patch:313-315 | the transition of the role that the step system takes when the granted lease shows |
| `Roles.RoleState.FinishPromotion` | backend/patches/backend/04-ha-leadership-routing.patch:317-319 | the transition that the step system takes to lead on that persistence |
| `Roles.RoleState.AbortPromotion` | backend/patches/backend/04-ha-leadership-routing.patch:321-323 | the transition that the step system takes back to follower |
| `Roles.RoleState.CheckDemotion` | backend/patches/backend/04-ha-leadership-routing.patch:325-335 | accepted if and only if this backend leads and, when a lease is named, leads on that very lease |
| `Roles.RoleState.Snapshot` | backend/patches/backend/04-ha-leadership-routing.patch:276-289 | what the leadership endpoint shows of each role |
| `Tailer.ReplayNext` | backend/patches/backend/02-ha-database-core.patch:1058-1070 | the fold between two times is one step per transaction of the range stream and nothing else |
| `Tailer.ReplayIsDocuments` | backend/patches/backend/02-ha-database-core.patch:1134-1160 | the fold of the log holds of every document exactly the value of its last write, and none that was never written or last deleted |
| `Tailer.DocumentsUnique` | backend/patches/backend/02-ha-database-core.patch:1134-1160 | there is only one such set of documents |
| `Tailer.TransactionWrites` | backend/patches/backend/02-ha-database-core.patch:1143-1155 | a transaction replaces or removes exactly the documents it writes |
| `Tailer.StreamFaithful` | backend/patches/backend/02-ha-database-core.patch:1062-1070 | after any number of transactions of the stream, the snapshot is the fold of the log up to the last one: none skipped, none applied twice |
| `Tailer.AdvanceFaithful` | backend/patches/backend/02-ha-database-core.patch:1134-1160 | applying the next transaction keeps the snapshot a fold of the log |
| `Tailer.FinishFaithful` | backend/patches/backend/02-ha-database-core.patch:1071-1075 | raising the snapshot to the target once the stream is exhausted keeps it a fold of the log |
| `Tailer.FollowerTailer.FastForwardTo` | backend/patches/backend/02-ha-database-core.patch:1039-1084 | the loop equals its specification whether or not the stream breaks off, keeps a faithful snapshot faithful, and never goes back in time |
| `Tailer.FollowerTailer.TailOnce` | backend/patches/backend/02-ha-database-core.patch:1125-1132 | chases the newest demand or the newest repeatable timestamp, and on success has reached it |
| `Tailer.FollowerTailer.ApplyTransaction` | backend/patches/backend/02-ha-database-core.patch:1134-1160 | a transaction the snapshot already has is skipped; any other replaces or removes exactly the documents it writes, and counts its revisions |
| `Tailer.FollowerTailer.ColdReload` | backend/patches/backend/02-ha-database-core.patch:1162-1183 | restarts from a repeatable timestamp no older than the tailed one |
| `Tailer.FollowerTailer.HandlePromote` | backend/patches/backend/02-ha-database-core.patch:1004-1037 | on success the snapshot has reached the end of the log |
| `Tailer.FollowerTailer.Demand` | backend/patches/backend/02-ha-database-core.patch:768-789 | returns at once if and only if the target is covered; otherwise the newest demand only grows |
| `Tailer.FollowerTailer.WarmUp` | backend/patches/backend/02-ha-database-core.patch:918-919 | once search is warm the tailed time is published, so waits for it return |
| `Tailer.FollowerTailer.PublishProgress` | backend/patches/backend/02-ha-database-core.patch:1086-1094 | nothing is published before search is warm |
| `Fencing.DemotionsMissTheHolder` | backend/patches/backend/04-ha-leadership-routing.patch:325-335 | in every run of steals, stale polls and late or repeated requests, an accepted demotion hits a backend whose lease the row has moved past, never the holder |
| `Fencing.DemotedIsBeaten` | router/bigbrain/election/decide.go:177-183 | every demoted claim is beaten by the live claim that is elected, on another pod |
| `Fencing.OneHolder` | backend/patches/backend/11-lease-primitive.patch:274-283 | no two backends ever show the same lease, so at most one holds the row |
| `Fencing.AcceptedExactly` | backend/patches/backend/04-ha-leadership-routing.patch:560-592 | a delivered request is accepted exactly if its target leads, on the lease that it names if it names one |
| `Fencing.RequestedExactly` | router/bigbrain/election/decide.go:177-183 | a decision asks to demote everyone who leads but the one with the newest lease |
| `Fencing.PollShows` | backend/patches/backend/04-ha-leadership-routing.patch:453-481 | what a polled backend answers in each role |
| `Fencing.LeaseKeptUntilRestart` | backend/patches/backend/04-ha-leadership-routing.patch:302-323 | until it restarts, a backend moves its role only along a promotion, so the lease it shows never changes |
| `Fencing.RunFenced` | backend/patches/backend/11-lease-primitive.patch:274-283 | leases are unique and owned, answers name leases their pods owned, and requested demotions name leases the row has left behind |
| `Handoff.RunSound` | backend/patches/backend/02-ha-database-core.patch:483-578 | the handoff invariant of every reachable state: frozen prefixes, final targets, wins and the log |
| `Failover.NoCommittedWriteLost` | backend/patches/backend/02-ha-database-core.patch:483-578 | a promotion that still holds the row succeeds if and only if the idle timestamp is not behind the tailed one, and then leads from the fold of the whole log with the idle timestamp as its latest: it holds of every document exactly what the last transaction to write it has written |
| `Failover.WinsStayTrue` | backend/patches/backend/02-ha-database-core.patch:506-526 | what a promotion started from is never contradicted later: older leases stay before its timestamp, its own and newer ones after it |
| `Failover.EveryCommitWasWon` | backend/patches/backend/11-lease-primitive.patch:274-283 | every transaction in the log was committed under the lease of a promotion that succeeded while holding the row |
| `Failover.LogOrderedByLease` | backend/patches/backend/11-lease-primitive.patch:274-283 | the log in timestamp order is in lease order: two leaders never interleave |
| `Failover.FollowerRefines` | backend/patches/backend/02-ha-database-core.patch:866-988 | through tailing, breaks, demands and reloads, the snapshot holds of every document what was last written to it up to its tailed time, and still does at every later time; a wait that returns is covered by the snapshot |
| `Failover.TimeNeverGoesBack` | backend/patches/backend/02-ha-database-core.patch:1039-1094 | until a restart, tailed time and published progress never decrease, even after the lease is lost |
| `Failover.StreamIsFastForward` | backend/patches/backend/02-ha-database-core.patch:1039-1084 | the interleavable stream steps add up to the loop of the tailer, broken off or not |
| `Failover.HoldersSucceed` | backend/patches/backend/02-ha-database-core.patch:504-526 | as long as high-water marks are read from the database, a promotion that still holds the row always passes both checks and leads from the fold of the whole log |
| `Failover.HolderRefines` | backend/patches/backend/02-ha-database-core.patch:1004-1037 | in the final fast-forward too, and after it, a backend that holds the row has the fold of the log as its snapshot |
| `Failover.FoldBreaksExactly` | backend/patches/backend/02-ha-database-core.patch:1004-1037 | while another backend leads holding the row, some commit of it breaks a snapshot that is a fold if and only if there is a free timestamp after the frozen prefix and up to the tailed time |
| `Failover.TailingIsSafe` | backend/patches/backend/02-ha-database-core.patch:1125-1132 | a tailing follower leaves no such timestamp, so no commit breaks its snapshot |
| `Failover.StolenLeaseMissesWrites` | backend/patches/backend/02-ha-database-core.patch:1004-1037 | a run in which that happens: the lease is stolen during the final fast-forward, and progress is published that the snapshot does not cover |
| `LeaderRegistry.Registry.constructor` | router/bigbrain/registry/registry.go:37-52 | the epoch is never zero |
| `LeaderRegistry.Registry.EnsureDeployment` | router/bigbrain/registry/registry.go:54-60 | a known deployment is left alone; a new one starts unpublished |
| `LeaderRegistry.Registry.Update` | router/bigbrain/registry/registry.go:82-112 | a change of pod or URL, or a first publication, gets the next version and replaces whatever each subscriber had buffered; an unknown name or an unchanged leader changes nothing else |
| `LeaderRegistry.Registry.Send` | router/bigbrain/registry/registry.go:97-111 | afterwards every channel holds the new event |
| `LeaderRegistry.Registry.Leader` | router/bigbrain/registry/registry.go:114-123 | the current event, and whether there is a leader |
| `LeaderRegistry.Registry.AllPublished` | router/bigbrain/registry/registry.go:132-141 | true if and only if there are deployments and all are published |
| `LeaderRegistry.Registry.GetLeaderEndpoint` | router/bigbrain/server/server.go:170-186 | 404, 425, 503 and 200 exactly as specified |
| `LeaderRegistry.Registry.Subscribe` | router/bigbrain/registry/registry.go:143-155 | refused if and only if the name is unknown or the limit is reached; otherwise an empty channel of its own |
| `LeaderRegistry.Registry.Cancel` | router/bigbrain/registry/registry.go:156-166 | removes that channel only, and only once |
| `Streams.LatestWins` | router/bigbrain/registry/registry.go:97-111 | in every interleaving of updates with draining streams, each stream has received or buffers the newest event since it subscribed, and receives strictly increasing versions |
| `Streams.FramesEndAtTheCurrentState` | router/bigbrain/server/server.go:199-229 | frames never decrease in version, were all published, and end at the current state once the channel is empty |
| `Streams.UpdatePublishes` | router/bigbrain/registry/registry.go:82-96 | an update publishes its event with the next version exactly if it changes the leader or is the first |
| `Streams.SendingReplaces` | router/bigbrain/registry/registry.go:97-111 | undisturbed, sending to a channel puts the newest event there whatever it held |
| `Streams.RunSound` | router/bigbrain/registry/registry.go:82-112 | the per-channel invariant of every reachable state, in the middle of an update too |
| `Tracker.UsherTracker.ApplyLeader` | router/usher/main.go:226-270 | the new view equals the (epoch, version) filter; the proxies follow the URL, the site proxy on its own path; a poll is asked for exactly on stream events of an unknown epoch |
| `Tracker.UsherTracker.ResolveOnce` | router/usher/main.go:281-322 | a response counts exactly with a body and status 200, or 503 with an epoch, and what it then makes of the view |
| `Tracker.UsherTracker.CurrentLeader` | router/usher/main.go:272-279 | requests go where the leader URL says or nowhere |
| `Tracker.QueryOfRegistry` | router/usher/main.go:296-322 | a poll of the registry succeeds if and only if the deployment is published, and brings its state |
| `Tracker.FoldIsNewest` | router/usher/main.go:226-270 | folding any deliveries of one epoch gives the state of the newest acceptable event among them |
| `Tracker.MergeIsOrderFree` | router/usher/main.go:226-270 | reordering, repeating and mixing in stream events of other epochs never changes the view |
| `Agreement.ViewWasPublished` | router/usher/main.go:226-270 | in every run with restarts and late lines, the edge shows nothing or exactly what was published under its epoch at its version |
| `Agreement.NeverGoesBack` | router/usher/main.go:242-253 | the edge never goes back to an earlier life of the registry, nor to an earlier version within one |
| `Agreement.OnePollAgrees` | router/usher/main.go:281-322 | once the registry is quiet, one poll makes the edge agree with it and stay so, if and only if the URL is empty or parses |
| `Agreement.QuietRun` | router/usher/main.go:226-270 | agreement lasts until the registry changes |
| `Agreement.ShownUrlsParse` | router/usher/main.go:229-236 | a URL that does not parse is never shown |
| `Agreement.FramesAreLines` | router/bigbrain/server/server.go:199-229 | every frame a stream writes is an event its life of the registry published |
| `Coalesce.JsonLenIsLength` | backend/patches/backend/06-usage-forwarder.patch:187-189 | the length accounted for a batch is that of its JSON array |
| `Coalesce.MergedLength` | backend/patches/backend/06-usage-forwarder.patch:187-189 | the merged JSON array is shorter than what was accounted for, by exactly one byte a merge |
| `Coalesce.TakenIsMaximal` | backend/patches/backend/06-usage-forwarder.patch:191-210 | a post merges the largest number of queued batches within both bounds |
| `Coalesce.NextPostBounded` | backend/patches/backend/06-usage-forwarder.patch:191-210 | at most 32 batches, and at most 4 MiB of JSON unless it is a single batch |
| `Coalesce.DeliversExactly` | backend/patches/backend/06-usage-forwarder.patch:226-253 | delivered if and only if one of three attempts succeeds and all before it could be retried |
| `Coalesce.DrainingConserves` | backend/patches/backend/06-usage-forwarder.patch:268-277 | draining posts everything queued, once and in order, each batch delivered or counted dropped, within the bounds |
| `Coalesce.Sink.CoalesceBatches` | backend/patches/backend/06-usage-forwarder.patch:191-210 | the loop takes exactly that many batches and carries over only one that does not fit |
| `Coalesce.Sink.Send` | backend/patches/backend/06-usage-forwarder.patch:213-254 | the outcome, and the dropped counter raised by exactly the batches lost |
| `Coalesce.Sink.PostCoalesced` | backend/patches/backend/06-usage-forwarder.patch:256-266 | one post, the batches it took, and the counters afterwards |
| `Coalesce.Sink.Drain` | backend/patches/backend/06-usage-forwarder.patch:268-277 | terminates with nothing queued and nothing carried over, having made exactly the specified posts |
| `Forwarder.BatchesConserved` | backend/patches/backend/06-usage-forwarder.patch:299-360 | in every interleaving the recorded batches are, as a multiset, those in posts the sink accepted, those in posts it did not accept or refused by the channel, and those outstanding; the two counters count the last two |
| `Forwarder.EndPostCounts` | backend/patches/backend/06-usage-forwarder.patch:213-266 | ending a post counts all its batches as dropped exactly if the sink did not accept it |
| `Forwarder.SendCounts` | backend/patches/backend/06-usage-forwarder.patch:331-360 | a send fails exactly on a closed channel or a full one of 2048, and only then counts a drop |
| `Forwarder.DoneAsAnswered` | backend/patches/backend/06-usage-forwarder.patch:213-266 | over a run, the record of posts is what the sink answered |
| `Forwarder.PostsInOrder` | backend/patches/backend/06-usage-forwarder.patch:191-277 | posts take the accepted batches in the order they were accepted, none twice and none skipped |
| `Forwarder.PostsBounded` | backend/patches/backend/06-usage-forwarder.patch:191-210 | every post of every run keeps both bounds |
| `Forwarder.StoppedIsDrained` | backend/patches/backend/06-usage-forwarder.patch:299-318 | once the worker has stopped, everything accepted was posted, and all that was recorded is posted, refused or about to be refused |
| `Forwarder.UndisturbedMerge` | backend/patches/backend/06-usage-forwarder.patch:191-210 | the interleavable merging steps are the loop that coalesces |
| `Retry.ReceiveParts` | backend/patches/backend/08-funrun-client.patch:748-786 | outcome and log lines of the response stream |
| `Retry.RunFunctionAttempt` | backend/patches/backend/08-funrun-client.patch:736-787 | one attempt equals its specification |
| `Retry.RunFunctionRemote` | backend/patches/backend/08-funrun-client.patch:881-949 | the retry loop makes exactly the specified attempts, returns the outcome of the last one, and forwards the log lines of the last one only |
| `Retry.AttemptsAreExact` | backend/patches/backend/08-funrun-client.patch:921-938 | the last attempt is the first that may not be repeated, or the one after all retries; there are at most retries + 1 |
| `Retry.FollowedExactly` | backend/patches/backend/08-funrun-client.patch:906-938 | an attempt is followed by another exactly if it and all before it came to nothing in a way that may be met again, spelled out for each type of function, and a retry is left |
| `Retry.SuccessForwardsAllLines` | backend/patches/backend/08-funrun-client.patch:757-766 | an attempt that succeeds has forwarded all its log lines in order, and nothing else |
| `Retry.LogsForwarded` | backend/patches/backend/08-funrun-client.patch:757-766 | leading log lines are forwarded in order, however the stream ends |
| `Retry.ActionsRunAtMostOnce` | backend/patches/backend/08-funrun-client.patch:704-718 | of all attempts of an action, only the last can have been executed |
| `Retry.HttpActionsAreSentOnce` | backend/patches/backend/08-funrun-client.patch:704-718 | an HTTP action is repeated only if there was no endpoint to send it to |
| `Retry.MutationsMayRunTwice` | backend/patches/backend/08-funrun-client.patch:704-718 | queries and mutations have no such guarantee, by example |
| `Retry.AttemptSucceedsExactly` | backend/patches/backend/08-funrun-client.patch:748-786 | an attempt succeeds if and only if its stream carries readable log lines and exactly one result, and ends in time |
| `Insights.DeploymentRows.Push` | router/bigbrain/insights/insights.go:125-132 | the new row is appended, and at capacity the oldest is dropped |
| `Insights.DeploymentRows.Ingest` | router/bigbrain/insights/insights.go:94-111 | bad limits change nothing; otherwise the limits are replaced, the newest rows kept, as many as there is room for, and the number that came in returned |
| `Insights.DeploymentRows.RowsBetween` | router/bigbrain/insights/insights.go:134-150 | exactly the rows in the window, in the order they came in, with the current limits |
| `Insights.RingKeepsTheLast` | router/bigbrain/insights/insights.go:94-132 | any sequence of ingests keeps exactly the newest of the rows that were not refused, place by place |
| `Insights.QueryAfter` | router/bigbrain/insights/insights.go:94-150 | end to end: a query after any ingests returns exactly the rows in the window among the last `cap` accepted, in order, with the last accepted limits |
| `Insights.WindowInOrder` | router/bigbrain/insights/insights.go:134-150 | a window is the rows at exactly the places whose time is in it, in their order |
| `Insights.WindowExact` | router/bigbrain/insights/insights.go:141-148 | a row is returned as often as it was kept, if and only if its time is in the window |
| `InsightsReport.Bucket` | router/bigbrain/insights/insights.go:373-384 | one count for each hour that occurs, of how often it occurs, in the order of the hours |
| `InsightsReport.CountsSum` | router/bigbrain/insights/insights.go:373-384 | counts by key add up to the number of things counted |
| `InsightsReport.MostRecent` | router/bigbrain/insights/insights.go:193-197 | the fifty newest rows, newest first: none left out is newer than any kept |
| `InsightsReport.GroupByOcc` | router/bigbrain/insights/insights.go:229-243 | the groups are exactly those of the conflict rows, each in order |
| `InsightsReport.BuildOccRow` | router/bigbrain/insights/insights.go:191-223 | the size of a group, its exact counts by hour, and its most recent rows |
| `InsightsReport.AggregateOcc` | router/bigbrain/insights/insights.go:182-189 | one entry for each group that occurs, describing exactly its rows |
| `InsightsReport.GroupExactly` | router/bigbrain/insights/insights.go:229-243 | a group holds the conflicts with its key, as often as they occur, and nothing else |
| `InsightsReport.SameGroupExactly` | router/bigbrain/insights/insights.go:225-241 | which two conflicts are of one group |
| `InsightsReport.HourIs` | router/bigbrain/insights/insights.go:373-377 | which hour a row is counted in |
| `InsightsReport.OccConserved` | router/bigbrain/insights/insights.go:182-227 | the groups add up to all conflicts, and the hours of a group to its calls |
| `InsightsReport.ThresholdBelowLimit` | router/bigbrain/insights/insights.go:72-74 | the warning threshold is never above the limit |
| `InsightsReport.ThresholdIs` | router/bigbrain/insights/insights.go:72-74 | the threshold is the given part of the limit, rounded down |
| `InsightsReport.MeasureIs` | router/bigbrain/insights/insights.go:315-329 | bytes are added up from the bytes read, documents from the documents |
| `InsightsReport.ReachingExactly` | router/bigbrain/insights/insights.go:281-292 | the rows described are those at or above the threshold, as often as they occur |
| `InsightsReport.DimensionRow` | router/bigbrain/insights/insights.go:281-313 | reported if and only if something reached the threshold, of the limit kind if and only if something reached the limit; describes exactly the rows that reached the threshold, whose hours add up to their count |

## Left out

- PromotionSafety.NoPromotionOverTransition: does not cover a transition recorded at the very instant at which a poll started that missed the pod, because there the code does not freeze; `FrozenExactly` says that there it fails.
- Rotation.PromotionsRotate: asks that the promotions of the stretch were polled at strictly increasing times, because attempts are remembered by poll time and equal times cannot be told apart.
- Rotation.NoPromotionRepeats: asks the same of the stretch, for the same reason.
- Failover.NoCommittedWriteLost: speaks of a backend that still holds the lease row; one that has lost it cannot commit (`EveryCommitWasWon`), and what it serves until it is preempted may miss writes (`FoldBreaksExactly`).
- Failover.HoldersSucceed: asks that the high-water mark of the final fast-forward was read from the database; the body of `max_ts` is not part of this model.
- Failover.FollowerRefines: covers search bootstrap and tailing; `HolderRefines` and `FoldBreaksExactly` cover the final fast-forward.
- Fencing.DemotionsMissTheHolder: takes every backend's database to have leases, as Postgres does; without them claims carry no lease and a demotion names none.
- Coalesce.Sink.Drain: takes the answers of the sink as a parameter, because the sink is another process.
- Insights.DeploymentRows.Ingest: takes rows that are decoded already; decoding JSON events is not modelled.
- InsightsReport.AggregateOcc: does not model the order of the entries, which compares their printed forms, nor which of several equally old rows are kept among the fifty recent ones, which an unstable sort decides.
- InsightsReport.DimensionRow: leaves the same ties open.
- Grouping reads by function and component, which is done as for conflicts with a coarser key.
- HTTP, server-sent events, gRPC, the reverse proxy, tokens and their headers: replaced by the outcomes they can have; clocks, random epochs and answers are parameters.
- Kubernetes discovery, custom metrics, configuration, charts, dashboards, JSON decoding and logging.
- The bodies of `lease_precond`, `advisory_lease_check`, the snapshot manager, `new_idle_repeatable_ts` and `max_ts` are not part of this model: the first two are a comparison with the row, a push or bump replaces the newest snapshot, and the last two are any timestamp no older than the log.
- Lease timestamps, versions and counters are unbounded; their 64-bit wrap-around is not modelled, nor a retry limit of 2^32 - 1. Serialising an event is taken to succeed. The warning ratio is a real number, without rounding.
- The lock sections of one act that touch disjoint state (leader, attempts, flags) are single steps; `decide` and the commit of its result are one step, because the fields that `decide` reads without the lock are written by the reconcile loop alone.
- Backends that boot as leader, the lease watch, retention and search workers, and document contents beyond an identifier and a value.
- A tailer that has exited: waiting for it fails, and only successful waits are modelled.
- The idle watchdog, back-off and reconnection of the leader stream, the number of stream subscribers in `Streams` (the limit is in `LeaderRegistry.Registry.Subscribe`), and deployments other than the one followed.
- Aborting the forwarder when its shutdown times out, and recovered panics.
- Building the remote request and decoding its result; only the attempts are modelled.
- The map from deployments to their rings in Insights, dates and time zones beyond the hour of a timestamp, and a ring of capacity zero, on which the code panics.
