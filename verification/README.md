# Verified model of the Mini Cloud Platform's control plane

A Dafny model of the parts of the platform whose correctness is not obvious from reading one
function: the leader election, the journaled key-value store with its watch streams, the scheduler,
the message queue, DNS names, alerts, the log ring, the metrics registry and the autoscaler.
`dafny verify dfyconfig.toml` checks the whole project.

## How it is organised

| file | models |
|---|---|
| `Election.dfy` | many nodes racing on one leader key; every interleaving of the steps inside a tick |
| `Store.dfy` | log, journal, snapshot file, index guard, versions, compare-and-swap, recovery |
| `ElectionStore.dfy` | election runs on that store, with other clients, restarts and the split swap |
| `Watching.dfy` | change queue, fan-out, bounded channels, List and its replay |
| `Raft.dfy` | the store as an object; each method takes the steps of the two models above |
| `Packing.dfy`, `Scheduler.dfy` | filter, stable ranking, greedy packing |
| `Decimal.dfy`, `Queue.dfy` | the retry counter, one topic with concurrent workers |
| `SplitQueue.dfy`, `SplitTermination.dfy` | the same topic with the counter unguarded: which runs keep its bounds, and that all come to an end |
| `Broker.dfy` | the broker object and its counters over all topics |
| `Dns.dfy` | `readName` with compression pointers, `writeName` |
| `Expressions.dfy`, `Alerts.dfy` | alert expressions, the alert state machine and its evaluator |
| `Logs.dfy`, `Metrics.dfy` | the log ring, the canonical metric key and the registry |
| `Autoscale.dfy` | the autoscaler's decisions over whole runs |
| `Prelude.dfy`, `Versioning.dfy`, `Ordering.dfy`, `Sums.dfy` | shared definitions |

Code that changes fields in place is a class whose methods are proved against a function of the old
state; the theorems are about those functions. Concurrent code is a state machine: a run is any
sequence of steps, and steps that cannot be taken change nothing, so theorems over all sequences
are theorems over all interleavings. Clocks, handler outcomes, storage errors, CPU readings and the
number scanner are arguments. Scores, thresholds and metric values are exact reals. Integers are
unbounded except where the width shows: the retry counter (64 bits) and the stored replica count
(32 bits).

## Where the code departs from what it promises

Each item names the theorem with the exact condition under which the promise holds, over all
inputs or runs, and where it is a protocol, a run that breaks it.

- Terms of successive leaders rise exactly in the runs in which no claim succeeds over a record of
  an equal or higher term that it read as expired, or did not read because the key was absent: the
  first claim is an unconditional Put (`ClaimTermsRiseIff`; failing runs: `ExpiryBreaksTermSafety`,
  `FirstClaimRace`).
- A live lease is taken over, and a sitting Leader gets a second one beside it, exactly when the
  ticking node's term has reached the record's (`LiveLeaseIsTakenOverIff`, `SecondLeaderIff`; run:
  `TwoLeadersAtOnce`).
- Compare-and-swap drops its lock between test and write. It acts as the atomic swap exactly when
  nothing touched the key in between, or it was deleted and written again up to the version tested
  (`SplitSwapIsAtomicIff`); otherwise an update is lost or a deleted key comes back
  (`TwoSplitSwapsBothWrite`), and two nodes can lead one term (`SplitSwapElectsTwo`).
- A store reopened with a snapshot file comes back unchanged exactly when nothing was journaled
  after the snapshot (`RecoveryExactIff`), and then drops writes until its log has caught up with
  the snapshot's revision (`RestoredStoreAppliesIff`).
- Versions start again after a delete: a swap on a version read earlier succeeds exactly when
  nothing touched the key since, or it was deleted and since written as often as that version says
  (`SwapOnReadVersionIff`).
- A watcher that folds its channel holds the current state exactly when the replay goroutine did
  not overtake a change (`StreamViewCurrentIff`; failing run: `ReplayCanOvertake`).
- A workload's plan respects free memory exactly when what each node holds, filled in rank order up
  to its CPU-based cap, fits (`MemoryFitsIff`), and plans of every size do exactly when each cap
  fits (`MemorySafeIff`).
- A preset retry counter keeps to MaxRetries exactly when it does not parse to a number below both 0
  and MaxRetries (`SaneIff`); any other breaks the bound on the queue (`InsaneHeaderBreaksBound`,
  `LongHeaderBuysARetry`).
- The retry counter is read and written back without a lock. Requeueing uses up one retry exactly
  when the counter still leaves as many as when it was read (`RequeueKeepsBudgetIff`); with one
  group it always does (`OneGroupIsNeverStale`), with two the queue can outgrow its bound
  (`TwoGroupsBreakBound`). Deliveries come to an end all the same (`SplitDeliveryTerminates`).
- `readName` returns exactly when the pointer chain never comes back to an offset
  (`TerminatesIff`), and adds a dot when the last pointer leads to a bare root byte
  (`ReadJoinsLabels`). A name survives `writeName` and `readName` exactly when it is empty or has
  only labels of 1 to 191 bytes (`NameSurvivesIff`).
- Alert rules document a form with a label block; such a rule is skipped unless a metric's name is,
  letter for letter, the metric with the block (`LabelledRuleIsSkippedIff`).
- A retried message is to be a copy with one more on its counter; its other headers are lost, since
  the map they are copied from has just been cleared. Key and value stay (`DeliveredAsPublished`).
- Metric keys are unambiguous for clean names and labels (`MetricKeyInjective`). A metric without
  labels shares its key with another exactly when its name has an '=' after a '|'
  (`UnlabelledSharesIff`).
- Two workloads share an autoscaling policy slot and a cooldown exactly when a slash can move from
  the one's name into the other's project (`KeysCollideIff`).

## Model

| member | source | states |
|---|---|---|
| `Election.ClaimRaisesIff` | internal/util/leader/leader.go:116-146 | a successful claim writes the claimant's own record at the next key version, and raises the record's term if and only if it is neither stale (over an expired record of an equal or higher term) nor blind (decided on an absent key, landing on such a record) |
| `Election.ClaimTermsRiseIff` | internal/util/leader/leader.go:97-146 | over every interleaving, from a present or an absent key, the terms of successive claims rise strictly, from above the record's term if there is one, in exactly the runs without a stale or blind claim |
| `Election.LiveRunsHaveSafeClaims` | internal/util/leader/leader.go:112-128 | runs on a present key in which no read finds the record expired have no stale or blind claim, so every result below covers them |
| `Election.AtMostOneLeaderPerTerm` | internal/util/leader/leader.go:129-146 | election safety: with any number of nodes, no two entries into state Leader carry the same term, and all are above the starting record's |
| `Election.EachClaimRaisesTermByOne` | internal/util/leader/leader.go:103-146 | without storage errors, from terms not above the record's, the k-th claim has term R + k and the record ends at R + number of claims |
| `Election.OneLeaderInRecordTerm` | internal/util/leader/leader.go:103-146 | at every moment a Leader's term is at most the record's, equals it if and only if that Leader owns the record, and at most one Leader has it |
| `Election.LeaderStepsDownIffOverwritten` | internal/util/leader/leader.go:112-128 | a Leader that ticks again on a live record becomes Follower if and only if another node's record is there |
| `Election.TermsGrowWithTicks` | internal/util/leader/leader.go:98-128 | in every run, a node's term grows by at least the number of ticks it started, whatever the others, the clock and the store do |
| `Election.NeverFollowsItself` | internal/util/leader/leader.go:116-128 | in every run, a node that reads a record it wrote itself goes on to claim and keeps its term |
| `Election.LiveLeaseIsTakenOverIff` | internal/util/leader/leader.go:119-145 | on a live record, however far from expiry, an undisturbed tick takes the leadership over, in the node's next term and at the next key version, if and only if the node's term has reached the record's; otherwise the node follows at the record's term and the key stays; other nodes are untouched |
| `Election.ExpiredLeaseIsTakenOver` | internal/util/leader/leader.go:116-145 | on an expired record of whatever term, an undisturbed tick makes the node Leader of its next term, with its own record and expiry at the next key version, all other nodes untouched |
| `Election.AbsentKeyIsClaimed` | internal/util/leader/leader.go:130-145 | on an absent key an undisturbed tick does the same, at version 1 |
| `Election.FailedTickClaimsNothing` | internal/util/leader/leader.go:98-146 | a tick whose write fails, its read failing or not, leaves the key alone and the node a Candidate of its next term, or the Follower of a live record of a higher one; never a Leader |
| `Election.OvertakenClaimIsLost` | internal/util/leader/leader.go:129-146 | a claim on a version that has moved on since the read leaves key, role and term as they are |
| `Election.SecondLeaderIff` | internal/util/leader/leader.go:79-145 | beside a sitting Leader on a live record another node's undisturbed tick makes a second one if and only if that node's term has reached the record's, and then in a higher term |
| `Election.TwoLeadersAtOnce` | internal/util/leader/leader.go:79-84 | a run with every read live that ends with two nodes in state Leader |
| `Election.ExpiryBreaksTermSafety` | internal/util/leader/leader.go:119-145 | a run with an expired read that ends with two Leaders in the record's own term |
| `Election.FirstClaimRace` | internal/util/leader/leader.go:130-138 | a run from an absent key with a blind claim, in which two nodes become Leader in the same term |
| `Election.FailedReadSkipsATerm` | internal/util/leader/leader.go:103-115 | with one failed read, a claim raises the record's term by two: the no-errors condition of the exact count is needed |
| `Election.TickOutcome` | internal/util/leader/leader.go:97-146 | the run of one undisturbed tick, storage errors included, in closed form; the four results above say what that comes to on a live, an expired and an absent record and after a failed write |
| `Election.Member.Tick` | internal/util/leader/leader.go:97-146 | the method that updates state, term, lastSeen and the key does exactly the run Begin, Look, Claim, Settle of the protocol, all other nodes untouched, so all results on that run hold of it |
| `Election.Member.constructor` | internal/util/leader/leader.go:47-58 | a new member is a Follower of term 0, with the default TTL for 0 |
| `Election.LeaderKey.CompareAndSwap` | internal/primitives/db/kv.go:54-56 | writes, with the next version, if and only if the version matches |
| `ElectionStore.ClaimOnStore` | internal/util/leader/leader.go:129-146 | a claim sent to a live store changes the leader key as the protocol model says, succeeds exactly then, and touches no other key |
| `ElectionStore.RestartKeepsCell` | internal/primitives/db/raft.go:182-208 | replaying the journal does not change what the election sees |
| `ElectionStore.RunsAreElectionRuns` | internal/util/leader/leader.go:97-146 | every run of elections on the store, with other clients on other keys and any number of restarts in between, is the run of the election model that its election steps make |
| `ElectionStore.OneLeaderOnStore` | internal/util/leader/leader.go:97-146 | so on the store a Leader's term equals the stored record's if and only if it owns that record, and at most one Leader has it |
| `ElectionStore.SplitSwapElectsTwo` | internal/primitives/db/raft.go:404-427 | with the swap as the code has it, from every state in which two nodes of one term have read the live record, both writes go through and both lead that term |
| `ElectionStore.TwoGetReady` | internal/util/leader/leader.go:98-128 | any two idle nodes of one term not below the record's come to such a state by beginning a tick and reading |
| `Store.CommitSpelledOut` | internal/primitives/db/raft.go:226-301 | an appended entry is journaled and, if and only if the log is not behind the last applied index, applied, counted and queued |
| `Store.AppendStamps` | internal/primitives/db/raft.go:226-233 | an appended entry gets the next index and the present term, which the first write raises to 1 |
| `Store.PutReplies` | internal/primitives/db/raft.go:368-388 | on every live store a Put replies with, stores and queues the entry of that key and value whose version is one above the key's old one, 0 for none; other keys stay |
| `Store.SwapReplies` | internal/primitives/db/raft.go:404-428 | a swap on the key's present version, 0 for an absent key, replies with, stores and queues the entry at the next version; on any other it replies a mismatch and changes nothing |
| `Store.DeleteRemoves` | internal/primitives/db/raft.go:297-308 | a delete takes away exactly its key, present or not, and queues a deletion under version 0 |
| `Store.TimerAndSnapshotKeepState` | internal/primitives/db/raft.go:243-276 | a snapshot saves term, revision and entries and empties the journal, and nothing else changes; the election timer changes only the term |
| `Store.ExecKeepsLive` | internal/primitives/db/raft.go:226-301 | every command, a restart without a snapshot file included, keeps log length = lastApplied = commitIndex = revision, entries = the log replayed, and the whole log on disk |
| `Store.RunKeepsLive` | internal/primitives/db/raft.go:368-428 | so does every run in which no restart meets a snapshot file |
| `Store.RecoveryRebuilds` | internal/primitives/db/raft.go:182-208 | without a snapshot file, replay gives back log, entries, revision, lastApplied, commitIndex and journal; the term falls back to the last entry's and all changes are queued again |
| `Store.RestartsAreInvisible` | internal/primitives/db/raft.go:182-240 | any number of restarts anywhere in any run without snapshots: every client gets the same replies, no write is skipped, and entries, revision and log (but for terms) end the same |
| `Store.RecoveryExactIff` | internal/primitives/db/raft.go:209-222 | recovery gives back entries and revision if and only if there is no snapshot file or nothing was journaled after it; otherwise the state as of the snapshot, with the log too short |
| `Store.WritesTakeEffectPastLastApplied` | internal/primitives/db/raft.go:280-287 | from any state, of a run's accepted writes exactly those that bring the log past the last applied index take effect |
| `Store.RestoredStoreAppliesIff` | internal/primitives/db/raft.go:209-222 | after a restart from a snapshot a Put is answered as stored, yet takes effect if and only if the journal is as long as the snapshot's revision |
| `Store.VersionCountsWrites` | internal/primitives/db/raft.go:368-428 | in every such run from a new store, restarts included, a key is present if and only if written since its last delete, and its version is the number of those writes |
| `Store.VersionMovesByWrites` | internal/primitives/db/raft.go:368-428 | in every run in which no restart meets a snapshot file, a key's version ends at the number of writes since its last delete, on top of its old version if there was none, and without either its entry stays |
| `Store.SwapOnReadVersionIff` | internal/primitives/db/raft.go:390-428 | a swap on a version read earlier, after any such run, deletes included, succeeds if and only if nothing touched the key since, and then on the very entry read, or it was deleted and has since been written as often as that version says |
| `Store.SwapSucceedsOncePerVersion` | internal/primitives/db/raft.go:404-428 | two swaps of one key with the same expected version both succeed only with a delete of the key between them |
| `Store.SplitSwapIsAtomicIff` | internal/primitives/db/raft.go:404-427 | a test that passed and the later write act as the atomic swap if and only if the commands in between, deletes included, left the key alone or deleted it and wrote it again up to the version tested; otherwise the write goes through where the atomic swap changes nothing, bringing a deleted key back |
| `Store.TwoSplitSwapsBothWrite` | internal/primitives/db/raft.go:404-427 | in every state, two swaps that passed their test on one version both write, the second over the first and under the same version; atomic, the second fails |
| `Watching.ChangesComeInOrder` | internal/primitives/db/raft.go:306-324 | in every run, changes fanned out followed by changes queued are the applied operations in order |
| `Watching.WatcherSeesSubsequence` | internal/primitives/db/raft.go:326-341 | each watcher's changes are an in-order selection of those under its prefix since it registered, and all of them if its channel never filled |
| `Watching.FanAllExactly` | internal/primitives/db/raft.go:326-341 | a drain adds to a channel exactly the changes under its prefix, from the first on, that fit among 256 unread items, and the watcher misses something if and only if they do not all fit |
| `Watching.MissesIffOverflow` | internal/primitives/db/raft.go:326-341 | over every run, a watcher has missed something if and only if some drain found more changes under its prefix than fit beside what its client had left unread, 256 in all |
| `Watching.ReplaySendsIff` | internal/primitives/db/raft.go:464-472 | the replay sends the next listed entry if and only if one is left and fewer than 256 items are unread |
| `Watching.ReceiveTakesOne` | internal/primitives/db/raft.go:456-457 | a client takes one unread item, if there is one, and touches nothing else |
| `Watching.ListHoldsExactly` | internal/primitives/db/raft.go:430-443 | a List holds the stored entries of exactly the keys that begin with the prefix, keys ascending |
| `Watching.ReplayIsHarmless` | internal/primitives/db/raft.go:456-463 | delivering again, from any point before the List, changes the List already contains makes no difference |
| `Watching.WatcherConverges` | internal/primitives/db/raft.go:430-472 | a watcher that never overflowed, queue drained: its changes folded over its List give exactly the current entries under its prefix, and the same sorted List, even when changes came between registering and listing |
| `Watching.StreamViewCurrentIff` | internal/primitives/db/raft.go:462-472 | a client that folds the channel as it comes is current if and only if no replayed entry overtook a change of its key |
| `Watching.ReplayCanOvertake` | internal/primitives/db/raft.go:464-472 | a run in which one does: queue drained, nothing missed, List replayed in full, and the folded channel is not the current state |
| `Raft.Raft.Open` | internal/primitives/db/raft.go:182-224 | the replay loop and the snapshot overwrite compute the model's recovery |
| `Raft.Raft.ApplyLocked` | internal/primitives/db/raft.go:280-314 | applies, counts and queues an entry past the guard, changes nothing otherwise |
| `Raft.Raft.Fanout` | internal/primitives/db/raft.go:326-341 | every watcher is offered the change under its own prefix and capacity, as the model's fan-out of which `FanAllExactly` says what it adds |
| `Raft.Raft.ApplyFromQueue` | internal/primitives/db/raft.go:316-324 | drains the queue to all watchers in order, as the model's Drain step |
| `Raft.Raft.PutKey` | internal/primitives/db/raft.go:368-388 | is the model's Put step followed by a Drain; on a live store it replies with, and stores, the key's value under the version one above the old |
| `Raft.Raft.DeleteKey` | internal/primitives/db/raft.go:390-402 | is the model's Delete step followed by a Drain; on a live store exactly the key is gone |
| `Raft.Raft.CompareAndSwap` | internal/primitives/db/raft.go:404-428 | is the model's swap: on a live store the entry at the next version is stored and returned if the versions agree; on a mismatch nothing at all changes |
| `Raft.Raft.List` | internal/primitives/db/raft.go:430-443 | from whatever order the map is walked in, the entries under the prefix sorted by key |
| `Raft.Raft.Watch` | internal/primitives/db/raft.go:456-463 | registers a watcher and gives it the List of that moment |
| `Ordering.AscendingIsUnique` | internal/primitives/db/raft.go:441-441 | two ascending lists of the same keys are equal, so the walk order of a map cannot show |
| `Ordering.LessIff` | internal/primitives/db/raft.go:441-441 | the order of keys: at the first difference the smaller character, or the shorter string, comes first |
| `Scheduler.TolerationIff` | internal/scheduler/scheduler.go:167-190 | a taint is tolerated if and only if its key has no '=' and "key=*" or "key=value" is among the tolerations |
| `Scheduler.Filter` | internal/scheduler/scheduler.go:99-129 | the loop keeps the feasible nodes in list order; `FeasibleIff` says which these are |
| `Scheduler.FeasibleIff` | internal/scheduler/scheduler.go:99-190 | a node is feasible if and only if it is up, has the free CPU, memory and GPUs, carries every selected label with its value, and each of its taints is tolerated, all in the node's own fields |
| `Scheduler.PlanHonoursRequirements` | internal/scheduler/scheduler.go:48-129 | in every plan the i-th placement is replica i's and on such a node; the plan says that no node will do if and only if there is none, and that room is short if and only if there is one and a replica is missing |
| `Scheduler.FilteredExactly` | internal/scheduler/scheduler.go:99-129 | exactly the feasible nodes survive and IDs stay distinct |
| `Scheduler.ScoreIsFreeShare` | internal/scheduler/scheduler.go:138-149 | on sane nodes the score lies in 0..1, is 1 if and only if nothing is allocated and 0 if and only if everything is |
| `Scheduler.ScoreComparesIff` | internal/scheduler/scheduler.go:138-149 | of two nodes the one with the larger free share, CPU and memory added and cross-multiplied, has the higher score |
| `Scheduler.RankedIsStableDescending` | internal/scheduler/scheduler.go:150-155 | the ranking is a permutation, descending by score, ties in list order |
| `Scheduler.RankingIsUnique` | internal/scheduler/scheduler.go:150-150 | any stable descending sort gives that same ranking |
| `Scheduler.CapFitsCpu` | internal/scheduler/scheduler.go:192-213 | on a feasible node the cap is between 1 and 4, fits the free CPU, and one more would not unless it is 4 or anti-affinity applies |
| `Packing.Choose` | internal/scheduler/scheduler.go:63-70 | the inner loop finds the slot of replica i between the cap sums, and nothing if and only if the caps are used up |
| `Packing.Pack` | internal/scheduler/scheduler.go:60-77 | the nested loop places min(replicas, sum of caps), every replica in its slot, and says whether all were placed |
| `Scheduler.Plan` | internal/scheduler/scheduler.go:48-78 | filter, ranking and packing together refine the closed form, messages and empty cases included |
| `Scheduler.ReplicaGoesToItsSlot` | internal/scheduler/scheduler.go:62-76 | replica i is on the k-th ranked node if and only if i lies between the cap sums before and after k |
| `Scheduler.BetterNodesAreFull` | internal/scheduler/scheduler.go:64-70 | a node holds a replica only when every better ranked node is at its cap |
| `Scheduler.PlacedOnFeasibleNodes` | internal/scheduler/scheduler.go:53-76 | every replica is on a feasible node |
| `Scheduler.CpuNeverExceeded` | internal/scheduler/scheduler.go:192-213 | the replicas on a node together fit its free CPU |
| `Scheduler.AllPlacedWhenEnoughNodes` | internal/scheduler/scheduler.go:60-77 | every replica is placed when there are at least as many feasible nodes |
| `Scheduler.AntiAffinityIsHonoured` | internal/scheduler/scheduler.go:192-199 | a workload that avoids itself never has two replicas on a node |
| `Scheduler.AvoidsItselfIff` | internal/scheduler/scheduler.go:192-199 | a workload avoids itself if and only if its name occurs somewhere in one of its rules |
| `Scheduler.ScalingKeepsPlacements` | internal/scheduler/scheduler.go:48-78 | the plan for fewer replicas is a prefix of the plan for more: scaling up moves nothing |
| `Scheduler.PlanIsUnique` | internal/scheduler/scheduler.go:48-78 | nodes and workload determine the decision |
| `Scheduler.MemoryFitsIff` | internal/scheduler/scheduler.go:60-114 | one workload's plan keeps within free memory if and only if what each node holds when the nodes are filled in rank order up to their caps fits its memory |
| `Scheduler.MemorySafeIff` | internal/scheduler/scheduler.go:112-114 | plans of every size keep within free memory if and only if each feasible node has memory for as many replicas as its cap |
| `Decimal.FormatInt` | internal/primitives/mq/mq.go:288-300 | the backwards loop over the 16-byte buffer stays inside it for n < 10^16 and leaves n's decimal digits |
| `Decimal.ParseInt` | internal/primitives/mq/mq.go:244-252 | the reading loop stops at the first non-digit and wraps at 64 bits |
| `Decimal.ParseUndoesItoa` | internal/primitives/mq/mq.go:244-262 | reading undoes writing for every n below 10^16; negatives come back as 0 |
| `Queue.RetryCostsOne` | internal/primitives/mq/mq.go:253-262 | a retry leaves exactly one retry less and its counter fits the buffer |
| `Queue.MessagesAreConserved` | internal/primitives/mq/mq.go:232-272 | over all interleavings and for every set of messages: queue entries = published + retried, claims = acked + retried + dead + in flight |
| `Queue.DeliveredAsPublished` | internal/primitives/mq/mq.go:144-157 | in every run from an empty topic, whatever the groups and outcomes, the m-th message has key and value of the m-th publish, and so has every message a worker holds or that is dead-lettered; its headers are the published ones until it is retried, and only the counter from then on |
| `Queue.OutcomesFollowHandlers` | internal/primitives/mq/mq.go:242-272 | in every run exactly the deliveries whose handler succeeded are acknowledged, in order, and each failed one is retried or dead-lettered |
| `Queue.EveryMessageIsSettled` | internal/primitives/mq/mq.go:232-286 | when a topic falls quiet, each message was acked or dead-lettered once per group and once more per duplicate of a retry |
| `Queue.OneGroupSettlesOnce` | internal/primitives/mq/mq.go:232-286 | with one group, each message is acked exactly once or dead-lettered exactly once |
| `Queue.OneGroupTotals` | internal/primitives/mq/mq.go:232-286 | with one group, published = acked + dead in the end |
| `Queue.QueueIsBounded` | internal/primitives/mq/mq.go:253-268 | with any groups and outcomes, the queue never exceeds published * (1 + MaxRetries), or published * (2 + MaxRetries) if a preset counter overflows |
| `Queue.SaneIff` | internal/primitives/mq/mq.go:244-253 | a preset counter buys more than MaxRetries retries if and only if it parses to less than 0 and less than MaxRetries |
| `Queue.InsaneHeaderBreaksBound` | internal/primitives/mq/mq.go:232-268 | for every counter that does, a run with one message and one group whose queue exceeds published * (1 + MaxRetries) |
| `Queue.ShortHeadersAreSane` | internal/primitives/mq/mq.go:244-252 | a preset counter of up to 18 characters cannot overflow |
| `Queue.LongHeaderBuysARetry` | internal/primitives/mq/mq.go:244-262 | one of nineteen nines does and leaves MaxRetries + 1 retries |
| `Queue.DeliveriesRunOut` | internal/primitives/mq/mq.go:232-272 | once publishing stops, the claims still possible are bounded by groups * (queue + retries left), whatever handlers do |
| `Queue.DeliveryTerminates` | internal/primitives/mq/mq.go:208-272 | once publishing stops, every schedule of delivery steps has bounded length |
| `Queue.GoesOnUntilQuiet` | internal/primitives/mq/mq.go:208-241 | and one that cannot go on has left the topic quiet |
| `Queue.DeadAfterAllRetries` | internal/primitives/mq/mq.go:253-286 | a dead-lettered message was retried exactly as often as it was granted |
| `Queue.HistoryIsQueueSlice` | internal/primitives/mq/mq.go:233-241 | a group claims each queue position once and in order: its history is the queue up to its cursor |
| `Queue.GroupsSeeTheSameOrder` | internal/primitives/mq/mq.go:233-241 | of two groups' histories one is a prefix of the other |
| `SplitQueue.RunsAreAtomic` | internal/primitives/mq/mq.go:242-268 | with reading and writing back the counter as separate steps, every run in which no worker writes back a counter that changed since it was read ends in the topic of a run of the atomic model |
| `SplitQueue.BoundedWithoutStale` | internal/primitives/mq/mq.go:232-272 | so conservation of messages and the bound on the queue hold in them |
| `SplitQueue.SplitDeliversAsPublished` | internal/primitives/mq/mq.go:144-157 | in every split run from an empty topic, stale writes or not, the m-th message has key and value of the m-th publish |
| `SplitQueue.OneGroupIsNeverStale` | internal/primitives/mq/mq.go:232-272 | while all subscribers are of one group, whatever the number of workers, no counter is written back stale |
| `SplitQueue.OneGroupSplitSettlesOnce` | internal/primitives/mq/mq.go:232-286 | so with one group each message is acked exactly once or dead-lettered exactly once |
| `SplitQueue.RequeueKeepsBudgetIff` | internal/primitives/mq/mq.go:243-268 | writing back keeps retries done + retries left = retries granted if and only if the counter leaves as many retries as when it was read |
| `SplitQueue.TwoGroupsBreakBound` | internal/primitives/mq/mq.go:232-268 | for every positive MaxRetries, a run of two groups and one message without a preset counter whose queue exceeds 1 + MaxRetries |
| `SplitTermination.RequeueDescends` | internal/primitives/mq/mq.go:243-268 | writing back, stale or not, takes one away at the level read and adds none there or below |
| `SplitTermination.SplitDeliveryTerminates` | internal/primitives/mq/mq.go:208-272 | from every state a topic can get into, with any groups, workers, preset counters and stale write-backs, no schedule of delivery steps goes on for ever |
| `SplitTermination.SplitGoesOnUntilQuiet` | internal/primitives/mq/mq.go:208-241 | and one that cannot go on has left the topic quiet |
| `Broker.CountsStep` | internal/primitives/mq/mq.go:176-180 | whichever topic takes whichever step, the global counters remain the sums over the topics |
| `Broker.StatsBalance` | internal/primitives/mq/mq.go:72-80 | in every run of the broker, topics being created and taking steps in any order: delivered = acked + retried + dead + in flight, queue lengths = published + retried, and nothing counts as nacked |
| `Broker.TopicsRunAlone` | internal/primitives/mq/mq.go:112-142 | in every such run each topic ends where its own steps alone would have taken it, so all results on one topic hold of each |
| `Broker.Settle` | internal/primitives/mq/mq.go:242-272 | acknowledge, retry or dead-letter as the handler and the parsed counter say |
| `Broker.Broker.GetOrCreateTopic` | internal/primitives/mq/mq.go:132-142 | finds the topic or adds an empty one, all else unchanged |
| `Broker.Broker.PublishTo` | internal/primitives/mq/mq.go:144-157 | is the model's Publish step, of which `DeliveredAsPublished` says that key and value reach every receiver, counters following |
| `Broker.Broker.SubscribeTo` | internal/primitives/mq/mq.go:198-206 | a new group starts at the head of the queue, an old one keeps its cursor |
| `Broker.Broker.ClaimNext` | internal/primitives/mq/mq.go:232-241 | claims the position under the cursor if and only if there is one |
| `Broker.Broker.FinishDelivery` | internal/primitives/mq/mq.go:242-286 | is the model's Finish step, counters following |
| `Dns.OffsetIsPastName` | internal/dns/dns.go:276-308 | on success the offset is within the message, just past the first pointer or root byte |
| `Dns.TerminatesIff` | internal/dns/dns.go:287-299 | reading ends if and only if the pointer chain never revisits an offset, and then within as many jumps as the message has bytes |
| `Dns.DescendingTerminates` | internal/dns/dns.go:287-299 | it ends on every message whose pointers lead to before their own segment |
| `Dns.SelfPointerLoops` | internal/dns/dns.go:287-299 | a pointer to itself is never read to an end |
| `Dns.ReadJoinsLabels` | internal/dns/dns.go:276-308 | the name read is the dotted join of the expanded labels, plus a dot if and only if there are labels and the last pointer leads to a bare root byte |
| `Dns.CompressedNameReads` | internal/dns/dns.go:287-306 | labels and then a pointer are read as these labels before the name at the pointer's 14-bit target, ending just past the pointer, or as the error met there |
| `Dns.MalformedNamesAreErrors` | internal/dns/dns.go:278-305 | after any labels, the end of the message, half a pointer and a label cut short are three different errors, with the offset of each |
| `Dns.ReadSegment` | internal/dns/dns.go:278-306 | the loop over labels stops where and how the model's scan does |
| `Dns.ReadName` | internal/dns/dns.go:276-308 | loop and recursion return the model's result, error offsets included |
| `Dns.WriteName` | internal/dns/dns.go:310-319 | appends length-prefixed non-empty labels and a zero byte |
| `Dns.WireFormat` | internal/dns/dns.go:310-319 | for labels of 1 to 63 bytes, each label is on the wire behind its length byte, in order, and a zero byte ends the name, as section 3.1 of RFC 1035 has it |
| `Dns.ReadNamesAreShort` | internal/dns/dns.go:276-308 | no name read from any message has more than 191 bytes between two dots |
| `Dns.ReadUndoesWriteIff` | internal/dns/dns.go:276-319 | at any place in any message, reading what was written gives the name without its empty labels, and the offset just past it, if and only if no label is longer than 191 bytes |
| `Dns.NamesRoundTrip` | internal/dns/dns.go:276-319 | dot-free labels of 1 to 63 bytes are read back exactly |
| `Dns.NameSurvivesIff` | internal/dns/dns.go:276-319 | every name is read back unchanged if and only if it is empty or has only labels of 1 to 191 bytes |
| `Expressions.IndexOutsideIsFirst` | internal/primitives/obs/alerts.go:148-164 | the index found is the first place of the operator outside label blocks, and -1 if and only if there is none |
| `Expressions.FindOutside` | internal/primitives/obs/alerts.go:148-164 | the scanning loop computes that index |
| `Expressions.SplitUndoesFormat` | internal/primitives/obs/alerts.go:128-146 | "name op value" is taken apart into just these for all six operators, whatever closed label blocks in the name hold |
| `Expressions.LabelledIsScannable` | internal/primitives/obs/alerts.go:15-16 | the documented form, metric and label block, is such a name |
| `Expressions.TakeApart` | internal/primitives/obs/alerts.go:128-146 | the loop over the operators computes that split |
| `Alerts.NoticesAlternate` | internal/primitives/obs/alerts.go:63-80 | over every history the notices alternate, firing first, and the rule fires if and only if the last was a firing; Evaluate ties them to the lists it returns |
| `Alerts.FiringIff` | internal/primitives/obs/alerts.go:52-83 | with proper times, a rule fires if and only if it matched at two evaluations at least its hold time apart and at every later one that found the metric |
| `Alerts.FiringNoticeIsEarned` | internal/primitives/obs/alerts.go:63-73 | a firing notice at t has a match at some s <= t - For with no failed match in between |
| `Alerts.SumMetric` | internal/primitives/obs/alerts.go:97-113 | sums a metric over its label sets and reports whether there was any |
| `Alerts.SumInAnyOrder` | internal/primitives/obs/alerts.go:103-112 | the order in which the snapshot lists the metrics does not matter |
| `Alerts.TakeSample` | internal/primitives/obs/alerts.go:97-121 | splitter, sum and comparison together compute what an evaluation reads |
| `Alerts.RuleReadsItsMetric` | internal/primitives/obs/alerts.go:97-121 | a rule "name op value", for each of the six operators, is matched if and only if the sum of the values over the metric's label sets stands in that relation to the value, and skipped if and only if no metric has the name |
| `Alerts.RuleWithoutOperatorIsSkipped` | internal/primitives/obs/alerts.go:132-145 | a rule with no operator outside label blocks is skipped |
| `Alerts.RuleWithoutNumberIsSkipped` | internal/primitives/obs/alerts.go:128-146 | so is "name op value" whose value is not a number |
| `Alerts.LabelledRuleIsSkippedIff` | internal/primitives/obs/alerts.go:15-16 | a rule of the documented form with a label block is skipped if and only if no metric's name is, letter for letter, the metric with the block |
| `Alerts.Advance` | internal/primitives/obs/alerts.go:56-80 | one rule's turn: new state and notices, the resolved one with the state before it is cleared |
| `Alerts.EvaluateRules` | internal/primitives/obs/alerts.go:52-83 | the loop takes every rule's step in turn on the state under its ID, shared or not, and collects the notices in rule order |
| `Alerts.PassStepsEachOnce` | internal/primitives/obs/alerts.go:52-83 | with distinct IDs each rule takes exactly its own step |
| `Alerts.PassRecordsSamples` | internal/primitives/obs/alerts.go:52-83 | with distinct IDs every rule's state afterwards shows the value it was given and the time of the pass |
| `Alerts.ReportsAreMarkedFiring` | internal/primitives/obs/alerts.go:63-80 | every alert in either list returned is a copy of a state of this pass, with its value and time, marked as firing; of a resolved one it is the state before the mark is cleared |
| `Alerts.NamedIff` | internal/primitives/obs/alerts.go:63-80 | with distinct IDs a list returned names a rule once if the rule's own step calls for it, and otherwise not at all |
| `Alerts.Alerts.Evaluate` | internal/primitives/obs/alerts.go:52-83 | one pass over the rules, each against the snapshot taken at its turn; over the object's life, with distinct IDs, what the returned lists say of each rule alternates, firing first, and with proper times the rule fires if and only if it has been matching for its hold time |
| `Alerts.Alerts.Add` | internal/primitives/obs/alerts.go:43-48 | a rule with a new ID starts fresh and the others keep their state; a repeated ID resets the state it shares |
| `Logs.Logs.constructor` | internal/primitives/obs/metrics.go:236-241 | an empty ring, 1024 slots for a size of 0 or less |
| `Logs.Logs.Append` | internal/primitives/obs/metrics.go:243-251 | the ring always holds the newest records in their slots, over any number of wrap-arounds |
| `Logs.Logs.Tail` | internal/primitives/obs/metrics.go:253-272 | exactly the newest min(n, appended, maxSize) records, newest first |
| `Metrics.BuildKey` | internal/primitives/obs/metrics.go:164-179 | the key is the same for every order in which the labels are walked |
| `Metrics.MetricKeyInjective` | internal/primitives/obs/metrics.go:164-179 | names without a bar, label keys without bar or '=', values without a bar: equal keys mean equal name and labels |
| `Metrics.UncleanNamesCollide` | internal/primitives/obs/metrics.go:164-179 | a name that looks like a label collides with that label |
| `Metrics.UncleanLabelsCollide` | internal/primitives/obs/metrics.go:164-179 | a label key with an '=' collides with the label whose value has it |
| `Metrics.UncleanValuesCollide` | internal/primitives/obs/metrics.go:164-179 | a value that looks as if a further label followed collides with those two labels |
| `Metrics.UnlabelledSharesIff` | internal/primitives/obs/metrics.go:164-179 | a metric without labels shares its key with some other metric if and only if its name has an '=' after a bar |
| `Metrics.RegistryRefinesMap` | internal/primitives/obs/metrics.go:52-99 | every run of Set and Add on such metrics reads as a map keyed by name and labels |
| `Metrics.StoredUnderItsName` | internal/primitives/obs/metrics.go:57-68 | after any operations on such metrics, one is registered if and only if some operation named it, and then with its own name and labels |
| `Metrics.Metrics.SetValue` | internal/primitives/obs/metrics.go:57-68 | the object takes the registry's Set step |
| `Metrics.Metrics.AddValue` | internal/primitives/obs/metrics.go:52-54 | the object takes the registry's Add step |
| `Metrics.Metrics.Get` | internal/primitives/obs/metrics.go:91-99 | returns the registry's value, 0 for none |
| `Autoscale.StaysInRange` | internal/autoscale/autoscale.go:117-139 | from a count in range, whatever is measured, every run stays between Min and Max |
| `Autoscale.OutOfRangeStays` | internal/autoscale/autoscale.go:118-129 | above Max no load brings the count down, below Min no idleness brings it up |
| `Autoscale.ChangesRespectCooldown` | internal/autoscale/autoscale.go:130-146 | under a fixed policy successive changes are at least the cooldown apart |
| `Autoscale.LoadScalesUp` | internal/autoscale/autoscale.go:118-123 | k effective evaluations under load give exactly min(R + k * ScaleUpBy, Max) |
| `Autoscale.IdleScalesDown` | internal/autoscale/autoscale.go:124-129 | k effective idle ones give exactly max(R - k * ScaleDownBy, Min) |
| `Autoscale.ChangesIff` | internal/autoscale/autoscale.go:117-146 | from a count in range, an evaluation changes it if and only if the cooldown is over, the store accepts, and the load is above the target with room above or below half of it with room below; then the change is timed, otherwise nothing changes |
| `Autoscale.SteadyLoadChangesNothing` | internal/autoscale/autoscale.go:118-138 | runs with the load between half the target and the target change nothing, whatever the policy and the count |
| `Autoscale.StoredFitsInt32` | internal/autoscale/autoscale.go:139-139 | under any policy the stored count stays within 32 bits over every run |
| `Autoscale.BothApplyBelowZero` | internal/autoscale/autoscale.go:118-129 | with a negative target one evaluation can raise and then lower the count |
| `Autoscale.KeysCollideIff` | internal/autoscale/autoscale.go:63-75 | two workloads share a key if and only if they are the same or a slash can move from the one's name into the other's project |
| `Autoscale.SlashlessProjectsDoNotCollide` | internal/autoscale/autoscale.go:63-75 | projects without a slash keep all workloads apart |
| `Autoscale.Controller.EvaluateOne` | internal/autoscale/autoscale.go:111-147 | the workload takes the model's step; an unknown one changes nothing, other replica counts stay, and so do the change times of workloads with another key |
| `Autoscale.Controller.SetPolicy` | internal/autoscale/autoscale.go:60-69 | sets the workload's policy; workloads with another key keep theirs, others that share the key lose it |
| `Autoscale.Controller.RemovePolicy` | internal/autoscale/autoscale.go:72-76 | exactly the workloads of that key lose their policy |

## Left out

- Multi-peer replication, roles and peer membership in `raft.go`: the transport sends one byte and never an entry, so there is no replicated log to reason about.
- Interleavings inside one key-value call other than the split swap, failing journal writes, fsync and JSON: a call is one step and the codec is the identity.
- `CreatedAt` stamps, metrics counters, `WatchOptions.Since` (the code ignores it) and watch timeouts.
- Raft.Raft.Watch: takes register and List as one call; the steps are separate in the Watching model, and the watchers are one sequence instead of lists by prefix.
- The state store behind nodes and workloads is not part of this model; nodes arrive as a list with distinct IDs, and a workload's replica count is what the store holds for its project and ID.
- Scheduler.Plan: GPU, memory and zone are not re-checked per replica because the code does not; `Reconcile` only copies placements. Caps are tabled before the nested loop, in which they do not change.
- Scheduler.ScoreNodes: ranks by insertion where the original calls the library's stable sort.
- Queue.QueueIsBounded: takes reading the retry counter and writing it back as one step; SplitQueue separates them and says which runs keep the bound. In both, writing the counter and appending the message are one step, and handlers do not change the message.
- Queue.DeliveriesRunOut: takes the same step as one; its number carries over by RunsAreAtomic to the split runs without a stale write, and SplitTermination shows that the others end too, without a number.
- Queue.DeliveryTerminates: likewise.
- Queue.DeadAfterAllRetries: likewise.
- Topic and DLQ channels and backoff settings (unused by the code).
- DNS sockets, zones and `handleQuery`, whose response repeats the four counts after the header.
- Dns.ReadName: requires a number of jumps that suffices, because the original does not return otherwise.
- Histograms, text exposition, traces and `AvgCPU`: straightforward sums and formatting.
- Load balancer, identity, secrets, object and volume storage, CNI, controller, node agent, runtime, API, CLI, SDK, dashboard and inference: plumbing, cryptography or files with short local logic.
- Floating-point rounding: reals throughout.
