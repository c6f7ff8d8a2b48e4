# Verification of Asty's control plane

Asty is a NATS-backed service orchestrator. Its leader node places copies of services on nodes, rolls out
new versions, drains nodes and scales services; every decision goes through a key-value (KV) bucket with
revisions and compare-and-swap (CAS) writes. This project models the hard parts of that control plane in
Dafny and proves what they promise over every input, every run and every interleaving.

`dafny verify dfyconfig.toml` checks the whole project.

| file | what it models | main results |
|---|---|---|
| `Election.dfy` | leader election on one KV key, any number of nodes, requests delayed, dropped and reordered, replies lost, TTL expiry, step-down | fencing with no timing assumption; mutual exclusion under the exact timing bounds; a leader that refreshes in time leads throughout |
| `CasStore.dfy`, `CasClients.dfy` | the CAS retry loops (`MutateAllocation`, `mutateCooldown`) with any number of callers, blind writes and late requests; the cooldown helpers; the dispatch guard | no lost update, exactly-once answers, real-time order, commuting helpers; a call that runs alone does what its callback says |
| `Deployer.dfy` | canary, rolling waves, automatic revert of one rollout with every KV write, command and wait free to fail | containment and blast radius at every moment; what each final state means and which one a schedule of faults leads to |
| `HealthWait.dfy` | the health tracker and the event loop that waits on it | a healthy verdict means an unbroken running interval, and no such interval is missed |
| `Sorting.dfy`, `Placement.dfy`, `Wrappers.dfy` | greedy datacenter-balanced placement | optimality, balance, order independence, the four criteria of every pick |
| `Reconcile.dfy` | one reconcile pass over a service | safety, coverage, convergence in one pass |
| `Autoscaler.dfy` | the autoscaler next to the scheduler | bounded copies, spaced actions, no fight, exact hysteresis |
| `Drainer.dfy` | node drain with concurrent migrations | make before break, conserved counters, what "drained" means, every drain can be completed |
| `Workqueue.dfy` | the reconciler's work queue | no lost Add, FIFO turn, exact condition for de-duplication |
| `LogRotation.dfy`, `LogTail.dfy` | the rotating log writer and the backward tail | stream conservation and backup count with their exact conditions, file bounds; the tail is the last lines of the file |
| `IpTable.dfy` | the rate limiter's LRU table and rule choice | the bounded table is the recent end of an unbounded one |

Code that updates state in place is modelled by classes and methods with loops (`Elector`, `Rollout`,
`HealthTracker`, `ClusterState`, `Autoscaler`, `Bucket`, `DrainOp`, `Queue`, `RotatingWriter`, `Table`), each
proved against functions or relations on values; protocols that many goroutines or nodes run are labelled
step systems over which the theorems quantify (every run, every state). Failures of KV, agents and the clock
are parameters: schedules of faults and foreign writes, or steps of the step systems.

## Findings

Where a natural reading of the code or its comments is stronger than the code, the model keeps the code, shows
a run in which the stronger claim fails and states when it holds:

- Leader election keeps at most one leader exactly when refresh gaps and step-down Deletes both stay within the
  TTL (`ExclusionBounds`). The campaign interval leaves 7.5 s of the 30 s for delays, less than the 10 s that one
  KV operation may take (`CampaignSchedule`).
- A captured flag in a CAS callback survives a lost attempt, so two dispatchers can both send a start command
  for one transition (`TwoStartCommands`); this happens exactly when others write between a call's first and last
  read and leave the record not pending (`DispatchIsExact`).
- A drain sends Stop before any replacement runs when the health watch is closed underneath it
  (`ClosedWatchBreaks`), and in no other way: otherwise the copy it placed was seen running, or one elsewhere after it
  released its own (`MakeBeforeBreak`).
- `Workqueue.Done` clears `dirty` when it re-appends, so copies of one key pile up without bound
  (`DuplicatesPileUp`). The queue de-duplicates exactly in runs where no Add lands on a key in process
  (`CleanExactly`).
- A scale-down is undone by the next reconcile pass when a live copy sits on a node that has left the cluster
  (`GhostFight`), and not when every live copy is on a known node (`NoFight`); `UndoneExactly` gives the exact
  condition.
- The idle marker survives evaluations that stop before the idle test, so a scale-down does not imply that the
  service was idle all along: every pattern of evaluations with an early one has a run in which the early ones met a
  busy service (`BusyUnnoticed`). It was idle throughout, whatever the usage, exactly when no evaluation since the
  stamp was blocked or wanted to scale up (`IdleThroughoutExactly`). The comment in
  `asty/internal/ops/autoscaler/scale_down.go:120-126` also says that the marker is cleared after a full window;
  the code keeps it.
- The idle floor of half the target prevents an immediate scale-up exactly for odd targets, or for targets of at
  least 4 with three or more copies (`HysteresisExact`); otherwise a copy can be one point over.
- The log writer keeps at most `maxFiles` backups in every run exactly when `maxFiles` is at least 1; below that it
  still keeps one (`BackupsExactly`).
- A rotation drops exactly the oldest backup if and only if no refused rename of a backup leaves it in the way of the
  next one (`RotationDrops`); otherwise the log has a gap (`StuckRenameLeavesGap`).
- A Deploy that is reverted before any dispatch went through keeps the new pin (`UntouchedRevertKeepsPin`); after a
  revert whose last pin write succeeds, the pin is restored exactly when some dispatch went through (`Deploy`).

## Model

| member | source | states |
|---|---|---|
| Election.Elector.CampaignForLeadership | asty/internal/ops/leader/campaign.go:69-98 | a claim that is answered with success makes the node leader with the revision it wrote and fires the become callback; a lost answer changes the bucket but not the node |
| Election.Elector.MaintainLeadership | asty/internal/ops/leader/campaign.go:100-122 | a refresh is a CAS on the node's own last revision; one that is answered with success keeps the node leader with the revision just written and fires nothing; any failure, even a lost answer to a committed refresh, gives up the lease and fires the lose callback |
| Election.Elector.Try | asty/internal/ops/leader/campaign.go:52-67 | one try refreshes as a leader and claims otherwise, with the bucket and the node moving together as the request's fate says; a leader whose last revision is live and whose refresh is answered stays leader with the live revision and fires nothing |
| Election.Elector.StepDown | asty/internal/ops/leader/campaign.go:124-144 | the lease is forgotten first, then the key is deleted unconditionally, and only a former leader fires the lose callback |
| ElectionCluster.StepInv | asty/internal/ops/leader/campaign.go:52-144 | every step of every node, of the network, of the clock and of TTL expiry keeps the invariant: own revisions, alternating callbacks, no two requests for one lease |
| ElectionCluster.Fencing | asty/internal/ops/leader/campaign.go:69-144 | in every state of every run a node leads iff it holds a lease revision, wrote that revision itself, no two nodes hold the live revision, callbacks alternate, and a successful refresh directly follows the same node's previous write in the key's history |
| ElectionCluster.GrantedExactly | asty/internal/ops/leader/campaign.go:69-122 | the bucket grants a claim exactly on an empty slot and a refresh exactly on the live revision; a grant makes the sender the writer of the live entry, a refusal changes nothing |
| ElectionCluster.AnswerExactly | asty/internal/ops/leader/campaign.go:73-121 | a granted answer makes or keeps its node leader with the granted revision; a refusal or a lost answer makes a leader a candidate without a lease; a callback fires exactly when the role changes |
| ElectionCluster.StepLease | asty/internal/ops/leader/campaign.go:100-144 | with Deletes executed within the TTL of the lease they give up, an unexpired lease is always the live entry |
| ElectionCluster.TimedExclusion | asty/internal/ops/leader/election.go:180-184 | if every leader starts its next try within the TTL of its last commit and Deletes are executed in time, at most one node reads true from IsLeader, and it is the writer of the live entry |
| ElectionCluster.LeadsThroughout | asty/internal/ops/leader/campaign.go:100-122 | within the timing bounds a leader that keeps refreshing in time, gives up on no answer and does not step down leads in every later state, whatever the others and the network do, and fires no callback |
| ElectionCluster.RefreshesForever | asty/internal/ops/leader/campaign.go:30-66 | for every number of rounds there is a run on the campaign interval in which one node wins the election and refreshes that often, with the become callback as its only one |
| ElectionCluster.SlowRefreshSplits | asty/internal/ops/leader/election.go:31-41 | any refresh gap beyond the TTL admits a run with two leaders |
| ElectionCluster.LateDeleteSplits | asty/internal/ops/leader/campaign.go:131-140 | any Delete bound beyond the TTL admits a run in which a stale Delete removes another node's lease and two nodes lead |
| ElectionCluster.ExclusionBounds | asty/internal/ops/leader/campaign.go:30-144 | exclusion over all runs within the bounds holds if and only if neither bound exceeds the TTL |
| ElectionCluster.CampaignSchedule | asty/internal/ops/leader/election.go:31-41 | the campaign interval leaves exactly a quarter of the TTL for delays, and an interval plus the KV timeout is too long |
| CasStore.KeepOk | asty/internal/infra/kv/allocations.go:134-174 | a foreign write never invalidates what is known of a call in progress: what it saw was current when it saw it, and its pending write is accepted only on that value |
| CasStore.AcceptedOk | asty/internal/infra/kv/allocations.go:163-171 | an accepted write makes the key hold what the callback makes of the value just before it |
| CasStore.ReceiveOk | asty/internal/infra/kv/allocations.go:164-173 | a conflict spends one attempt and proves that the log has grown since the read; the eighth ends the call |
| CasStore.Bucket.Mutate | asty/internal/infra/kv/allocations.go:134-174 | the retry loop with a given schedule of foreign writes and lost messages around every request and reply: on return the key still equals the fold of the log and the outcome says how often and when the call committed; the call fails exactly when one of its own messages is lost; if its first four messages go undisturbed, it answers not-found on a missing key without a zero record, declines with nothing changed when the callback does, and otherwise commits exactly the value the callback returns |
| CasStore.Bucket.Retrieve | asty/internal/infra/kv/allocations.go:137-145 | the Get is served at one moment and its answer arrives at a later one, with foreign writes or a failure in between |
| CasStore.Bucket.Fetch | asty/internal/infra/kv/cooldowns.go:74-95 | one read and one callback: a missing cooldown starts from the zero record, a missing allocation is reported, the callback is handed the value read after those of earlier attempts, and what it returns is what the call goes on to write; the fetch fails exactly on a lost message |
| CasStore.DecideOk | asty/internal/infra/kv/allocations.go:147-162 | the callback runs on the value that was current when the Get was served, however the key has moved since, and what it returns is written or declined on that basis |
| CasStore.Bucket.Write | asty/internal/infra/kv/cooldowns.go:96-100 | Update succeeds exactly on the revision read, Create exactly on a missing key, and a refused write changes nothing |
| CasSystem.RunInv | asty/internal/infra/kv/allocations.go:134-174 | the invariant holds in every state of every interleaving of served reads, callbacks, writes, replies, blind writes, deletes, failures and late requests |
| CasSystem.CallbackExactly | asty/internal/infra/kv/cooldowns.go:74-95 | in every run, a served read entails: the value the key had at a moment of the call, or the zero record of a missing key, is handed to the callback after the earlier ones, and the call then waits on a write of exactly what the callback returned, or declines; a missing key without a zero record ends it |
| CasSystem.ServeExactly | asty/internal/infra/kv/cooldowns.go:96-108 | in every run, a write to a key that nobody wrote since the call's last read commits, the log gains that commit and the key holds what the callback returned; a refused write changes nothing |
| CasSystem.ReplyExactly | asty/internal/infra/kv/allocations.go:163-173 | in every run, a reply reports the commit that is on record, or a conflict after which the call reads again, or ends exhausted after its eighth attempt |
| CasSystem.FailedGaveUp | asty/internal/infra/kv/allocations.go:134-174 | in every run, a call returns an error other than not-found and exhaustion only after it gave up on a message of its own |
| CasSystem.NoLostUpdate | asty/internal/infra/kv/allocations.go:134-174 | at every moment of every run the record equals the fold of the committed callbacks in revision order, each applied to its predecessor's value |
| CasSystem.Returned | asty/internal/infra/kv/allocations.go:136-173 | nil means exactly one commit inside the call, or a decline of a value that was current at some moment of the call; not-found means that the key was missing at some moment of the call and, like exhaustion, no commit; exhaustion needs eight foreign writes during the call; any other error means at most one commit |
| CasSystem.AloneFinishes | asty/internal/infra/kv/allocations.go:134-174 | from every reachable state a call about to read that runs alone returns what the key and its callback call for: not-found, a decline with nothing changed, or the commit of exactly the callback's value on top of the log, no other call having moved |
| CasSystem.FreshFinishes | asty/internal/infra/kv/cooldowns.go:71-111 | the same for a call that has not begun |
| CasSystem.RealTimeOrder | asty/internal/infra/kv/allocations.go:134-174 | if one call returned before another began, its commit precedes the other's in the log |
| Cooldowns.LastWriteWins | asty/internal/infra/kv/cooldowns.go:37-69 | each field of the record holds the last write to that field, whatever the writers of other fields did |
| Cooldowns.CooldownRun | asty/internal/infra/kv/cooldowns.go:19-111 | over every run of helpers without blind writes, reading the key gives per field the last commit to it, and zero if there was none |
| Cooldowns.HelperAnswers | asty/internal/infra/kv/cooldowns.go:71-111 | a helper neither declines nor misses its key; nil means its one write is in the log, exhaustion that it is not |
| Cooldowns.HelperCommits | asty/internal/infra/kv/cooldowns.go:37-111 | from every reachable state a helper that runs alone commits, on a missing key as on a live one, and the record read afterwards has its own field set and every other field as before |
| Cooldowns.HelpersCommute | asty/internal/infra/kv/cooldowns.go:37-69 | two runs whose commits agree on each single field leave the same record, however the fields interleave |
| DispatchGuard.DispatchIsExact | asty/internal/ops/reconciler/reconcile.go:94-110 | the start command is sent without an own transition exactly when others, and only others, wrote between the call's first and last read and the record was not pending at the last; an undisturbed call sends it exactly when it committed |
| DispatchGuard.DispatchAlone | asty/internal/ops/reconciler/reconcile.go:94-110 | from every reachable state a dispatcher that runs alone moves a pending allocation to starting and raises its flag, and leaves every other one as it is |
| DispatchGuard.TwoStartCommands | asty/internal/ops/reconciler/reconcile.go:94-113 | a run in which two dispatchers both send a start for one transition |
| Deployer.Rollout.Claim | asty/internal/ops/deployer/lifecycle.go:13-23 | succeeds exactly when no deploy of the service is in flight, and leaves it marked |
| Deployer.Rollout.PinVersion | asty/internal/ops/deployer/lifecycle.go:44-51 | the pin becomes the given one unless the write is dropped, and whether this write met an error is on record |
| Deployer.Rollout.RecordTouched | asty/internal/ops/deployer/touched.go:10-20 | appends the copy unless it is already recorded |
| Deployer.Rollout.MarkPending | asty/internal/ops/deployer/canary.go:74-80 | the copy's record goes to the version unless it is missing or the write is dropped; success is reported exactly without an error |
| Deployer.Rollout.Dispatch | asty/internal/ops/deployer/rolling.go:54-65 | marking, restarting and recording one copy keeps every intermediate moment contained and within the radius, with at most the next copy half dispatched; it succeeds exactly when the record exists and neither operation errs |
| Deployer.Rollout.DeployCanary | asty/internal/ops/deployer/canary.go:19-39 | without canaries healthy at once; otherwise dispatches the canary copies and settles them only after a health wait |
| Deployer.Rollout.DeployCanaryWithRetries | asty/internal/ops/deployer/canary.go:46-68 | repeats the canary within the retry budget; retries re-dispatch the same copies and touch no others; whether it passes, how many operations it takes and what it touches is the forecast from the schedule of faults |
| Deployer.Rollout.Wave | asty/internal/ops/deployer/rolling.go:29-50 | one wave settles exactly its copies after a cancellation check, a dispatch and a health wait, or none |
| Deployer.Rollout.RollingUpdate | asty/internal/ops/deployer/rolling.go:15-52 | success means that every copy was dispatched and settled in waves of at most MaxParallel, with Updated equal to Total; whether it succeeds is the forecast from the schedule of faults |
| Deployer.BlastRadius | asty/internal/ops/deployer/rolling.go:29-49 | at every forward moment, apart from copies that have proven healthy, only a block of at most max(Canary, MaxParallel) consecutive copies of the plan, half dispatched ones included, differs from how it started |
| Deployer.Rollout.RevertOne | asty/internal/ops/deployer/rollback.go:54-65 | sends one more touched copy back to the current version, or stops with one recorded error |
| Deployer.Rollout.WalkBack | asty/internal/ops/deployer/rollback.go:54-65 | success means that every touched copy was sent back, with an audit trail of exactly two good steps per copy |
| Deployer.Rollout.RevertDeployment | asty/internal/ops/deployer/rollback.go:25-82 | fails without a known version, reverts trivially with nothing touched, and otherwise ends reverted and healthy or flagged as a failed rollback |
| Deployer.Rollout.HandleFailure | asty/internal/ops/deployer/deployer.go:165-171 | reverts if the plan says so and fails otherwise, and leaves the pin alone unless touched copies were reverted |
| Deployer.Rollout.Deploy | asty/internal/ops/deployer/deployer.go:103-160 | the trace is forward up to some moment and backward from there on, and all forward when the deploy completes, fails or touched nothing; forward, touched is a prefix of the plan, at most one further copy can be at the target version, and the unproven copies stay within the radius; Completed, Reverted, Failed and RollbackFailed each fix the copies, the audit trail, the flag and the pin, each weakened only by an error of the last write of its own; the final state is the forecast from the plan, the records and the schedule of faults; nothing is touched exactly when the first dispatch cannot go through, and a revert whose last pin write succeeds restores the pin exactly when something was; the gate is lowered and the service released |
| Deployer.FaultlessCompletes | asty/internal/ops/deployer/deployer.go:132-159 | if every copy of the plan has its record and no operation from the first dispatch on fails, the forecast is Completed |
| Deployer.FaultlessDeployCompletes | asty/internal/ops/deployer/deployer.go:103-160 | Deploy itself then ends Completed with every copy of the plan touched, whatever becomes of its first pin and gate |
| Deployer.FaultlessReverts | asty/internal/ops/deployer/rollback.go:25-82 | a failed deploy with AutoRevert and a known version ends Reverted if nothing fails any more from the failure on |
| Deployer.RetryBudget | asty/internal/ops/deployer/canary.go:46-68 | a canary that turns healthy after r unhealthy waits passes if and only if r is zero or within CanaryRetries |
| Deployer.NothingLandsExactly | asty/internal/ops/deployer/rolling.go:29-65 | nothing is dispatched if and only if the first dispatch cannot go through: no copies, a missing record, a lost cancellation check or a failing mark or command |
| Deployer.UntouchedRevertKeepsPin | asty/internal/ops/deployer/rollback.go:46-52 | for every plan with AutoRevert, copies and a known version, a Deploy whose first dispatch fails ends Reverted with nothing touched and the pin still at the target |
| Deployer.AuditGrows | asty/internal/ops/deployer/rollback.go:84-105 | a rollback trail without error extends by a marked and a sent step, and a trail with an error has exactly one, at its end |
| HealthWait.TimerHits | asty/internal/ops/deployer/tracker.go:71-94 | a timer is armed from until() exactly during a healthy period, and it is due at the first moment after that at which satisfied() holds of the period |
| HealthWait.TrackTracks | asty/internal/ops/deployer/tracker.go:30-52 | over every sequence of statuses and clock readings, healthyAt is the moment at which the current unbroken period began in which every batch member was last seen running, and it is set exactly while one lasts |
| HealthWait.HealthTracker.AllRunningLocked | asty/internal/ops/deployer/tracker.go:60-69 | true exactly when every tracked member was last seen running |
| HealthWait.HealthTracker.Update | asty/internal/ops/deployer/tracker.go:30-43 | records the status and starts or resets the healthy period |
| HealthWait.SeedTracker | asty/internal/ops/deployer/wait.go:36-50 | the initial scan, each record read at its own moment, leaves the tracker consistent with what was read |
| HealthWait.LoopTracks | asty/internal/ops/deployer/wait.go:56-90 | over every sequence of events the tracker mirrors the delivered statuses, and unless a signal is pending the timer is armed for the current healthy period |
| HealthWait.HealthySound | asty/internal/ops/deployer/wait.go:85-88 | a timer that finds the batch satisfied comes after every member's last delivered status was running, without a break, for at least MinHealthyTime |
| HealthWait.HealthyComplete | asty/internal/ops/deployer/wait.go:68-90 | whenever every member was last seen running and no signal is pending, the timer is armed and from then on brings the healthy verdict at exactly the moments at least MinHealthyTime after the running period began |
| HealthWait.Round | asty/internal/ops/deployer/wait.go:68-90 | one round gives up exactly on the end of the context, is healthy exactly when its own timer finds the batch satisfied, and otherwise moves as the loop's specification does |
| HealthWait.WaitBatch | asty/internal/ops/deployer/wait.go:35-91 | the verdict falls at the first event that ends the context or is the loop's timer finding the batch satisfied; healthy means an unbroken running interval of at least MinHealthyTime ending then |
| Sorting.SortBy | asty/internal/ops/scheduler/candidates.go:33-33 | sort.Slice as its callers rely on it: an ordered permutation |
| Placement.CandidateOrder | asty/internal/ops/scheduler/candidates.go:61-75 | the comparator is a strict total order on nodes with distinct IDs, whatever the counts |
| Placement.PickCandidates | asty/internal/ops/scheduler/candidates.go:21-43 | there are min(needed, eligible) picks and each is the preferred one of the nodes left: in a least loaded datacenter, among those on the node with the most allocations, among those with the most free memory, and among those with the first ID |
| Placement.EligibleNodes | asty/internal/ops/scheduler/candidates.go:45-56 | keeps exactly the unoccupied nodes whose free CPU and memory cover what is required and reserved |
| Placement.GreedyUnique | asty/internal/ops/scheduler/candidates.go:31-42 | for nodes with distinct IDs the greedy picks are unique, so the result does not depend on the order of the node list |
| Placement.GreedyExactly | asty/internal/ops/scheduler/candidates.go:61-75 | a sequence of picks is greedy if and only if every pick satisfies the four criteria in turn among the nodes left: least loaded datacenter, most allocations on the node, most free memory, first ID |
| Placement.StrLessLexicographic | asty/internal/ops/scheduler/candidates.go:73-73 | the order of IDs is the lexicographic one |
| Placement.InDcExactly | asty/internal/ops/scheduler/helpers.go:62-67 | a node that names no datacenter counts towards the default one |
| Placement.GreedyLeastFirst | asty/internal/ops/scheduler/candidates.go:31-42 | every greedy pick goes to a least loaded datacenter among those with a node left |
| Placement.Balanced | asty/internal/ops/scheduler/candidates.go:21-43 | a datacenter that received a pick ends at most one above any datacenter that still has an unpicked eligible node |
| Placement.GreedyOptimal | asty/internal/ops/scheduler/candidates.go:21-43 | no other choice of the same number of eligible nodes has a smaller largest per-datacenter count |
| Reconcile.ClusterState.ReapGhosts | asty/internal/ops/scheduler/scheduler.go:91-112 | deletes exactly the records on unknown nodes whose delete succeeds and returns the others |
| Reconcile.ClusterState.ReconcileService | asty/internal/ops/scheduler/scheduler.go:49-86 | one pass in place: ghosts reaped, system services on every free node, regular ones raised to their target by greedy picks, and the outcome for no healthy nodes or an unknown kind |
| Reconcile.FilterHealthy | asty/internal/ops/scheduler/scheduler.go:118-126 | keeps exactly the ready nodes |
| Reconcile.CountOccupied | asty/internal/ops/scheduler/helpers.go:82-92 | counts the occupied healthy nodes of every datacenter |
| Reconcile.PassEffect | asty/internal/ops/scheduler/reconcile.go:13-84 | a pass places copies on exactly the quota of free nodes |
| Reconcile.EffectSafe | asty/internal/ops/scheduler/scheduler.go:49-112 | no pass touches a record that occupies its node, whatever fails, and with deletes succeeding no record stays on an unknown node |
| Reconcile.EffectExactly | asty/internal/ops/scheduler/scheduler.go:49-112 | every record after a pass: a fresh pending one where a copy was put, otherwise the old one, kept exactly if its node is known or its delete failed |
| Reconcile.StatusClasses | asty/internal/core/types/allocation.go:73-90 | a copy is live unless stopped or failed, and holds its node unless stopped |
| Reconcile.SystemEverywhere | asty/internal/ops/scheduler/reconcile.go:13-43 | every healthy node with room ends up with a copy of a system service |
| Reconcile.RegularReaches | asty/internal/ops/scheduler/reconcile.go:49-84 | a regular service reaches min(target, live + eligible) and a pass never lowers the live count on known nodes: it grows no further than the wish and the healthy nodes allow, and stops short only when no eligible node is left |
| Reconcile.TargetExactly | asty/internal/ops/scheduler/scheduler.go:192-206 | n copies are within the target exactly when n is zero or neither the scale (MinCopies without one) nor the number of healthy nodes is below n; the floor ignores the nodes |
| Reconcile.PassConverges | asty/internal/ops/scheduler/scheduler.go:49-86 | a second pass on the same nodes places nothing and changes nothing |
| Autoscaler.PickRemovalVictims | asty/internal/ops/scheduler/helpers.go:99-125 | returns min(n, live) distinct copies; every one of them shares its datacenter with more live copies than any copy that stays, or with as many and has the smaller node ID |
| Autoscaler.GoesBeforeExactly | asty/internal/ops/scheduler/helpers.go:99-125 | the comparator of the removal order compares the numbers of live copies per datacenter, more first, and then node IDs lexicographically |
| Autoscaler.NodeDcExactly | asty/internal/ops/scheduler/helpers.go:99-125 | a copy on a listed node counts towards that node's datacenter, one on an unlisted node towards the empty name |
| Autoscaler.FindNodeWithTraffic | asty/internal/ops/autoscaler/scale_up.go:65-80 | the first listed ready node with traffic and no live copy, if there is one |
| Autoscaler.FindOverloaded | asty/internal/ops/autoscaler/scale_up.go:107-123 | true exactly when some live running copy is over a target |
| Autoscaler.OverloadedExactly | asty/internal/ops/autoscaler/scale_up.go:107-123 | a running copy with a process is over a target exactly when its CPU use exceeds the CPU target or its memory use reaches the next whole percent of the required memory |
| Autoscaler.PickFreeNode | asty/internal/ops/autoscaler/scale_up.go:127-137 | if and only if some healthy node has room and no live copy, one such node: in a least occupied datacenter, then with the most allocations, then with the most free memory, then with the first ID |
| Autoscaler.EvaluateScaleUp | asty/internal/ops/autoscaler/scale_up.go:28-59 | decides to grow exactly when below MaxCopies and traffic or pressure calls for it, onto the first node with traffic or else the best free node |
| Autoscaler.LiveRunning | asty/internal/ops/autoscaler/scale_down.go:98-106 | the running copies with a process, each once |
| Autoscaler.AverageUsage | asty/internal/ops/autoscaler/scale_down.go:108-118 | the truncated averages of CPU and memory |
| Autoscaler.SumsAdd | asty/internal/ops/autoscaler/scale_down.go:108-118 | the totals behind the averages are the sums of the single uses |
| Autoscaler.IdleExactly | asty/internal/ops/autoscaler/scale_down.go:51-67 | for non-negative uses and targets, copies are idle exactly when their total CPU is below (half the target, rounded down, plus one) times their number and their average memory does not reach the next whole percent after half its target |
| Autoscaler.Autoscaler.IdleWindowSatisfied | asty/internal/ops/autoscaler/scale_down.go:127-144 | stamps the marker on the first idle observation and answers whether the hold time has passed since the stamp; an unreadable marker counts as not over and a failed write leaves it unset |
| Autoscaler.Autoscaler.EvaluateScaleDown | asty/internal/ops/autoscaler/scale_down.go:32-96 | decides to shrink exactly when more copies run than the floor, they are idle, the window is over and the nodes can be listed; picks the victim of the removal order and leaves the marker accordingly |
| Autoscaler.Autoscaler.EvaluateService | asty/internal/ops/autoscaler/autoscaler.go:53-84 | the whole decision and the whole effect on the cooldown record as a relation on the inputs, for every combination of failing cooldown reads, marker writes and node listings |
| Autoscaler.DecidesExactly | asty/internal/ops/autoscaler/autoscaler.go:53-84 | with the KV available, a pass grows exactly when no gate is up, no stamp is within either cooldown and growth is called for; it shrinks exactly when none of that holds it back, growth is not called for, copies are to spare and the marker is IdleHold old; and the marker it leaves |
| Autoscaler.CooldownExactly | asty/internal/ops/autoscaler/cooldown.go:14-46 | the service is in cooldown exactly when a recorded scale-up or scale-down is younger than either cooldown |
| Autoscaler.Autoscaler.ExecuteScalingDecision | asty/internal/ops/autoscaler/execute.go:14-55 | creates one pending record or deletes the one record and stamps the matching cooldown field and no other; a failed write changes nothing and a failed stamp is not fatal |
| ScalingRuns.CopiesBounded | asty/internal/ops/autoscaler/scale_up.go:28-31 | over every run of reconcile passes, autoscaler passes and outside changes that revive nothing, the live count stays within MaxCopies |
| ScalingRuns.ActionsSpaced | asty/internal/ops/autoscaler/cooldown.go:14-46 | any two autoscaler actions of a run are at least max(CooldownUp, CooldownDown) apart |
| ScalingRuns.ScaleDownKeepsFloor | asty/internal/ops/autoscaler/scale_down.go:32-49 | a scale-down removes one live copy and stops at the floor |
| ScalingRuns.NoFight | asty/internal/ops/scheduler/scheduler.go:192-206 | with every live copy on a known node, the reconcile pass after a scale-down places nothing and keeps exactly the other copies |
| ScalingRuns.UndoneExactly | asty/internal/ops/scheduler/reconcile.go:49-84 | the reconcile pass after a scale-down places nothing if and only if the live copies on known nodes, without the removed one, meet the target, or no node is free |
| ScalingRuns.GhostFight | asty/internal/ops/scheduler/scheduler.go:91-112 | with a copy on a node that left, the reconcile pass after a scale-down places a copy again |
| Hysteresis.ExcessAtMostOne | asty/internal/ops/autoscaler/scale_down.go:13-18 | after removing one of two or more idle copies no evenly loaded copy is more than one point over the CPU target, and none is over it in the safe cases |
| Hysteresis.HysteresisExact | asty/internal/ops/autoscaler/scale_down.go:51-57 | the overload test stays quiet for every idle load if and only if the target is odd, or at least 4 with three or more copies |
| Hysteresis.NoFlap | asty/internal/ops/autoscaler/scale_up.go:107-123 | on the records themselves: if running copies pass the idle test, no survivor with the same total spread evenly triggers the CPU overload test in the safe cases, and none is more than one point over |
| IdleWindow.ScaleDownWaits | asty/internal/ops/autoscaler/scale_down.go:120-156 | in every run of passes a scale-down under IdleHold comes at least IdleHold after the evaluation that stamped the marker, with no evaluation since then that reached the idle test and found the service busy |
| IdleWindow.BusyUnnoticed | asty/internal/ops/autoscaler/autoscaler.go:63-79 | for every configuration and every pattern of evaluations there is a run of passes ending in a scale-down in which every early evaluation, blocked by a deploy, met a busy service |
| IdleWindow.IdleThroughoutExactly | asty/internal/ops/autoscaler/scale_down.go:20-31 | every evaluation from the stamp to the scale-down found copies to spare, in all runs with a given pattern of evaluations, if and only if none of them was blocked or wanted to scale up |
| Drainer.DrainOp.BumpMigrated | asty/internal/ops/drainer/run.go:166-173 | one more migrated, and remaining recomputed from the total |
| Drainer.DrainOp.CompleteNodeDrain | asty/internal/ops/drainer/run.go:136-162 | drained without errors, stuck with them, nothing remaining |
| Drainer.StepEffect | asty/internal/ops/drainer/migrate.go:18-80 | every step of a migration or dismantling moves its counters, its semaphore slot and its Stop in agreement with where the task stands |
| Drainer.RunInv | asty/internal/ops/drainer/run.go:29-100 | the drain's invariant holds in every state of every interleaving, with records changing freely in between |
| Drainer.MakeBeforeBreak | asty/internal/ops/drainer/migrate.go:18-66 | a regular copy is sent Stop at most once; before that its own migration put a pending copy on a target and later saw that copy Running there, or released the local record and later saw a copy Running on another node, unless the health watch on the target was closed |
| Drainer.SeenMeansStop | asty/internal/ops/drainer/migrate.go:18-66 | in every run, once a migration has seen its replacement running, sending Stop is its next step or Stop is on record |
| Drainer.HistoryExactly | asty/internal/ops/drainer/migrate.go:18-80 | in every run, what each step writes to the records: a pending copy on the target, the local record removed, or nothing |
| Drainer.AtMostFourMigrate | asty/internal/ops/drainer/run.go:66-79 | at most four migrations hold a slot, and a queued one may take a slot exactly when fewer do |
| Drainer.CountersAddUp | asty/internal/ops/drainer/run.go:166-173 | Migrated + Remaining = Total until completion, and Migrated never exceeds the Stops sent |
| Drainer.DrainedMeansAll | asty/internal/ops/drainer/run.go:136-162 | drained means no error, Migrated = Total, one Stop per copy, and for every migrated copy a moment from its Stop on, and before the drain's own tidying up, at which its record was down or gone, unless its stop watch was closed |
| Drainer.StuckMeansErrors | asty/internal/ops/drainer/run.go:130-146 | a completed drain is stuck exactly when an error is on record, and every abandoned copy's service is among the errors |
| Drainer.ErrorsExactly | asty/internal/ops/drainer/run.go:122-128 | in every run the errors on record are exactly the services of the failed placements, waits and confirmations, in order |
| Drainer.StuckExactly | asty/internal/ops/drainer/run.go:136-162 | a completed drain is stuck if some placement, wait or confirmation failed and drained otherwise |
| Drainer.DrainCompletes | asty/internal/ops/drainer/run.go:29-162 | from every reachable state of a drain that is neither cancelled nor over there is a way to its end without failures and closed watches: every task not yet over is migrated or falls back with its Stop on record, and the drain is drained, or stuck if an error was on record before |
| Drainer.EveryListDrains | asty/internal/ops/drainer/run.go:29-162 | for every list of copies there is a run in which all of them are sent Stop and counted and the drain ends drained |
| Drainer.ClosedWatchBreaks | asty/internal/infra/kv/watch.go:157-160 | a closed health watch lets Stop go out with no copy running anywhere |
| Drainer.WatchAllocation | asty/internal/infra/kv/watch.go:145-179 | ends at the first signal that its callback accepts, that closes its channel or that ends its context, and tells which; all other signals are passed over |
| Drainer.WaitForHealthyOnNode | asty/internal/ops/drainer/wait.go:47-64 | nil exactly when the watch ended on Running or on a closed channel and neither context is over; no Running was delivered before |
| Drainer.WaitForStopped | asty/internal/ops/drainer/wait.go:23-43 | nil exactly when the watch ended on a report that the record is gone, stopped or failed, or on a closed channel, and neither context is over; no such report came before |
| Drainer.HealthyReplacementExists | asty/internal/ops/drainer/wait.go:119-133 | true exactly when a running copy is listed on another node |
| Workqueue.Queue.Add | asty/internal/ops/reconciler/workqueue.go:44-63 | on an open queue the key becomes dirty and is queued unless it is already dirty or being processed; a closed queue does not change |
| Workqueue.Queue.Get | asty/internal/ops/reconciler/workqueue.go:65-79 | hands out the head and marks it as processing, or reports the shutdown |
| Workqueue.Queue.Done | asty/internal/ops/reconciler/workqueue.go:81-90 | releases the key and re-appends it if it was added meanwhile |
| Workqueue.Queue.AddAfter | asty/internal/ops/reconciler/workqueue.go:92-105 | a positive delay puts exactly one item on the heap, a non-positive one adds at once, and a closed queue takes nothing |
| Workqueue.Queue.AddRateLimited | asty/internal/ops/reconciler/workqueue.go:107-115 | counts the failure and delays the key by the doubled and capped base |
| Workqueue.Queue.FireDelayed | asty/internal/ops/reconciler/workqueue.go:169-202 | exactly the items that are due leave the heap, and their keys are added in the order they became due |
| Workqueue.FiredIsOwed | asty/internal/ops/reconciler/workqueue.go:177-180 | every key that came due on an open queue is owed to the workers afterwards |
| Workqueue.RateLimitedDelay | asty/internal/ops/reconciler/workqueue.go:121-130 | min(base * 2^n, max) |
| Workqueue.AddNeverLost | asty/internal/ops/reconciler/workqueue.go:44-90 | after Add(k) on an open queue, k is queued or both processing and dirty at every later moment until some Get hands it out |
| Workqueue.OutInTurn | asty/internal/ops/reconciler/workqueue.go:65-79 | a key at index p that has not been handed out has seen at most p Gets, so it is out within p+1 |
| Workqueue.CleanExactly | asty/internal/ops/reconciler/workqueue.go:44-90 | the queue stays free of duplicates, equal to dirty and apart from processing throughout a run if and only if no Add lands on a key in process |
| Workqueue.DuplicatesPileUp | asty/internal/ops/reconciler/workqueue.go:81-90 | for every n there is a run that leaves n copies of one key in the queue |
| LogRotation.RotatingWriter.Write | asty/internal/infra/process/rotation.go:55-75 | one Write in place, with the bytes the file took and the rotation's faults |
| LogRotation.RotatingWriter.RotateLocked | asty/internal/infra/process/rotation.go:81-98 | the renames from the oldest down, each free to be refused, leave every slot as the value model says, slots above maxFiles untouched; a failing close, rename of the active file or reopen leaves the writer closed |
| LogRotation.WriteExactly | asty/internal/infra/process/rotation.go:55-75 | an open writer logs the piece it was given, in the same file if that stays within maxBytes or the file is empty, and otherwise alone in a fresh file with the old one as path.1; only a closed writer and a fatal fault keep a piece out |
| LogRotation.RotationShifts | asty/internal/infra/process/rotation.go:81-98 | a rotation with nothing refused moves every backup up by one, drops the oldest and leaves a fresh active file |
| LogRotation.RotationLeaves | asty/internal/infra/process/rotation.go:87-97 | whatever renames are refused, the surviving backups keep their order, followed by the active file |
| LogRotation.RotationDrops | asty/internal/infra/process/rotation.go:87-97 | a rotation drops exactly the oldest slot and keeps the rest of the stream in place if and only if no refused rename leaves a file in the way of the next one |
| LogRotation.StuckRenameLeavesGap | asty/internal/infra/process/rotation.go:88-96 | a refused rename of path.1 loses it from the middle: what is left is no suffix of the stream |
| LogRotation.StreamConserved | asty/internal/infra/process/rotation.go:55-98 | after any Writes and faults, as long as no refused rename leaves a file in the way, the files, oldest first, hold a suffix of everything ever logged, no Write split |
| LogRotation.FilesBounded | asty/internal/infra/process/rotation.go:62-71 | every file is within maxBytes or holds a single non-empty Write |
| LogRotation.BackupsExactly | asty/internal/infra/process/rotation.go:87-96 | the number of backups stays within maxFiles in every run if and only if maxFiles is at least 1 |
| LogTail.GetLogs | asty/internal/infra/process/logs.go:94-144 | for every file, number of lines and buffer size, exactly the tail of the chunk-free definition |
| LogTail.ScanChunk | asty/internal/infra/process/logs.go:129-140 | finds the wanted newline in a chunk or counts the chunk's newlines |
| LogTail.TailUnique | asty/internal/infra/process/logs.go:88-94 | the tail is unique, so the result does not depend on the buffer size |
| LogTail.TailLines | asty/internal/infra/process/logs.go:88-94 | a proper tail has the requested number of lines |
| LogTail.TailIsLastLines | asty/internal/infra/process/logs.go:88-144 | for every file and every division of it into lines, the tail is the last of these lines, as many as asked for or all |
| LogTail.SplitLines | asty/internal/infra/process/logs.go:88-94 | every file has such a division |
| IpTable.Table.Get | asty/internal/api/gateway/ratelimit.go:121-147 | returns the IP's limiter or a new one and stamps it; the table moves as the bounded table does, no other entry changes, and none is lost when the IP is known or there is room |
| IpTable.Table.CleanupExpired | asty/internal/api/gateway/ratelimit.go:170-183 | pops old entries from the back only, leaving the others as they are |
| IpTable.SweepIsExact | asty/internal/api/gateway/ratelimit.go:170-183 | on a table in recency order the early stop removes exactly the entries last seen before the cutoff |
| IpTable.LruRefines | asty/internal/api/gateway/ratelimit.go:121-183 | after any lookups and sweeps on a clock that does not go back, the table is the most recent part of the unbounded table, in recency order and within max(1, MaxIPs) |
| IpTable.PlainExactly | asty/internal/api/gateway/ratelimit.go:121-183 | the unbounded table holds a row for an IP and a moment if and only if that was the IP's last contact and no later sweep reached it |
| IpTable.CompileRules | asty/internal/api/gateway/ratelimit.go:73-89 | exactly the usable rules, longest prefix first |
| IpTable.RuleFor | asty/internal/api/gateway/ratelimit.go:110-118 | the rule that decides is a longest non-empty declared prefix of the path with positive rate and burst, and none decides exactly if there is none |

## Left out

- NATS, JetStream and RAFT: the KV is a cell with strictly increasing revisions, CAS, blind writes and TTL expiry; how replicas agree is not modelled.
- The leader-info cache and its watcher in `asty/internal/ops/leader/election.go`: it informs other nodes and decides nothing.
- Fairness: that a call, a drain or a refresh can always go on is proved as the existence of a continuation, and what it then does; that it does go on, that a leader is eventually elected or a queued key is eventually taken needs assumptions on schedulers.
- Deployer.Rollout.Deploy: one service per object, no other writer of the allocation versions or the pin during a deploy, MaxParallel positive as the server fills it in (`asty/internal/core/types/service.go:114-123`); deployment history, progress percentages and events are not part of this model.
- HealthWait.WaitBatch: the watch's own delivery (coalescing of updates by NATS) is an arbitrary event sequence.
- Placement.PickCandidates: the traffic-based choice of a replacement node and the proximity matrix are not modelled; the drain takes any other node as its target.
- Reconcile.ClusterState.ReconcileService: listing errors return before anything is written and are not modelled; versions of new records belong to the deployer's model.
- Autoscaler.Autoscaler.EvaluateService: failing lists of allocations or nodes at the start return an error before anything happens and are not modelled; gateway traffic is a given set of nodes (the float average of RPS samples is a parameter), and usage counters are unbounded integers.
- ScalingRuns.CopiesBounded: KV operations succeed, and outside changes must not revive a copy that was not live; an agent restarting a failed copy raises the live count without either loop acting.
- ScalingRuns.NoFight: stated for regular services; system services have no floor.
- CasStore.Bucket.Mutate: the UpdatedAt stamp and decoding are part of the callback, and decoding errors count as failed calls.
- Drainer.StepEffect: the goroutines' bodies are tasks that move one step at a time rather than methods, because the results are about their interleavings.
- Drainer.MakeBeforeBreak: the node record's own status and races between Start, Resume and a running drain are not modelled.
- Workqueue.Queue.FireDelayed: container/heap is a list in pop order; ties may pop in any order in Go.
- LogRotation.RotatingWriter.RotateLocked: a failing removal of the oldest backup is not modelled.
- LogTail.GetLogs: a file that changes while it is read, and read errors, are not modelled.
- IpTable.Table.Get: token buckets are identities; their arithmetic belongs to golang.org/x/time/rate.
- Agents, artifact download, process supervision, the dashboard, metrics, the gateway proxy, configuration loading and the web code: input, output and plumbing around the logic above.
