# matrixone-operator: a model of its hardest controllers

The operator runs MatrixOne on Kubernetes through controllers that never talk to each other. They
share objects in the API server, read them from caches that may be stale, and write them back. This
project models the parts of that system in which several steps have to fit together, and states what
holds over every input, every interleaving or every sequence of reconciliations.

1. **CN pool protocol.** Claims take Idle pods, the pool retires idle pods, the store controller
   recycles Draining pods, all by rewriting labels of the same pods. `ApiServer` is the shared store:
   every write gets a version, readers may see any version ever written, `Update` succeeds only
   against the latest one. `PodModel` holds the label rewrites as functions, `PodObjects` the same
   edits made in place, `StoreScore` the score and the versions that decide its queries, `PoolProtocol` the transition system and its invariant,
   `PoolHistory` the properties of whole runs. `ClaimController`, `ClaimPasses`, `StoreController` and
   `PoolScaling` are the controllers' own passes, loops and phase machines on that state.
2. **Claim sets.** `ClaimOrder` is the deletion comparator, `ClaimSet` scaling and rollout;
   `Sorting` is the sort both pools and claim sets use.
3. **Log set failover.** `Failover` keeps store health, `LogSet` evicts stores, `Ordinals` lists the
   ordinals around the evicted ones, `Bootstrap` is the bootstrap decision.
4. **Bucket claims.** `Buckets` is the protocol between log sets, CN and DN sets, users and the bucket
   claim controller, again on `ApiServer`; `BucketData` asks whether the data of a storage is safe.
5. **Configuration.** `Toml`, `TomlMerge` and `TomlConfigs` are paths and the deep merge,
   `TomlIdempotence` says when it is idempotent, `CNConfig` is what the CN config builder computes,
   `CNConfigReads` the builder in place and what its result reads, `ConfigFiles` the content-addressed
   files.
6. **Identities.** `Identity`, on `Hexadecimal`, is the UUID of CN pods and of log pods.

## Main results

- A pod Bound to one claim and later to another was given back, drained without interruption for at
  least the minimum delay, and came back to Idle on a score recorded by a quiet round
  (`PoolHistory.ReboundOnlyAfterRecycling`); two claims never share a pod, and a retired pod is never
  Bound again.
- The built CN config reads, key by key, what the spec, the version and the storage ask, and elsewhere what
  the user configured (`CNConfigReads.BuiltReadsAsAsked`).
- Merging the same override twice is merging it once exactly where the base settles the override
  (`TomlIdempotence.IdempotentExactly`). So the CN config builder, which edits its own input, reaches a
  fixed point at once exactly for the file service lists that `CNConfig.CNConfigIsStableExactly` names,
  among them all that name the operator's entries at most once.
- Every evicted log store was Down in all recorded observations for at least the failure timeout, and at
  least n - n/2 of the n bootstrapped ordinals survive every run.
- A bucket stays with its log set until that log set gives it up with no CN or DN set on it, and its
  data is deleted only after a finalization with policy Delete; when the data of a storage in use is
  safe is stated exactly, over every run.
- From any fleet a rollout reaches exactly the wanted up-to-date claims without ever falling below the
  wanted number of ready ones.
- The stored config files are, after any sequence of syncs, exactly the newest one and those that some
  pod has been reading ever since.

## Where the code does less than one might expect

- `TransferLeavesNothingToSync` is an equivalence: the new holder's sync rewrites the pod again when
  its additional labels set a claim-set or owner label the holder itself does not have.
- `ReclaimFacts`: a claim whose additional labels name the phase key drops the phase of the pod it
  gives back, and the pod is lost to the pool.
- A pool with fewer active pods than replicas gives up more idle pods than it should, unless none are
  allowed anyway (`PoolScaling.Surplus`, in the contract of `PoolActor.Sync`; `LosesItsOnlyIdlePod`).
- The data of a bucket in use may be deleted, in two ways: a log set takes a claim in state Deleting
  (`RetakenWhileDeleting`), or another claim of the same storage is given up with policy Delete
  (`SecondClaimLosesItsData`); `TwoClaimsOfOneStorage` reaches both. `DataIsSafeExactly` says exactly
  which steps must not happen, `CarefulLogSetsKeepTheirData` what log sets could look at to avoid them.
  The code looks at a cached list, and at the deletion timestamp only when a log set is admitted
  (`pkg/webhook/logset_webhook.go:249-272`).
- A status of a log set that is not written back can hide a recovery, and the store is evicted
  (`LostStatusHidesRecovery`).
- A config that names one of the operator's file services twice, with different contents, changes with
  a second build (`CNConfigChurns`).
- With claims migrating, scaling in can leave fewer ready claims than wanted (`ReadyFloorExactly`,
  `ReadyFloorBreaks`).
- `scale` calls `scaleOut` with a negative count when there are too many claims, which does nothing:
  the surplus stays until it is ready.
- Operator and start script agree on a log pod's UUID only for ordinals below 16^11.

## Assumptions

- `Patch` is one atomic read-modify-write of the current object; `Update` is compare-and-swap on the
  version read.
- Lists of idle pods may hold any past version of a pod. The list of a claim's own pods, the index of
  claims by pod that finalization builds, and the absence of a pod are current.
- Pod names are not reused. Reconciliations of one claim do not overlap, and a deletion once seen stays
  seen. Reads of bucket claims, too, may show any past version. Nobody edits `podName` or `sourcePod` of a claim from outside. The phase of a claim may change
  in any way.
- Bucket claims are created by log sets only, and only the claim's own controller removes the data
  finalizer. A Kubernetes object under deletion takes no new finalizer and goes away with its last one.
- Times are whole seconds. Answers of HAKeeper, of query services and of the API server's network are
  arbitrary inputs. Digests are arbitrary functions with the length and alphabet the code relies on,
  and no collision among the contents at hand where that is stated. Integers are unbounded.
- A sort is any function with the contract of `Sorting.SortBy`.

## Model

| member | source | states |
|---|---|---|
| ApiServer.UpdateFacts | pkg/controllers/cnclaim/controller.go:182-193 | an accepted update was computed from the very object it overwrites, however stale the cache; a refused one changes nothing |
| StoreScore.HasMOFeature | api/core/v1alpha1/semver.go:62-101 | the table search decides exactly an interval of versions in the precedence of section 11 of Semantic Versioning 2.0.0 without pre-releases: pipelines [1.1.2, 5.0.0), replicas [2.0.0, 3.0.0) |
| StoreScore.SafeExactlyAfterQuietRound | pkg/controllers/cnstore/controller.go:490-575 | after any rounds, whatever was recorded before, the score authorises reclaim exactly when every query the version requires succeeded with zero in the latest completed round |
| StoreController.StoreScoreRecord.BeginObservation | pkg/controllers/common/cnstore.go:176-186 | the score it leaves never authorises reclaim; its counts survive exactly within one process lifetime |
| StoreController.StoreScoreRecord.CollectQueryStats | pkg/controllers/cnstore/controller.go:537-575 | each count is the answer of its own query, or zero where the version does not require it, or left alone on an error; after an invalidation the score authorises reclaim exactly for a quiet round |
| StoreController.Controller.SyncStats | pkg/controllers/cnstore/controller.go:490-530 | a round that starts leaves a score that is safe exactly when the round was quiet; a process that has not started leaves the old one; the protocol invariant is kept |
| StoreController.Controller.PoolingCNReconcile | pkg/controllers/cnstore/pooling.go:42-106 | a dated draining pod is evicted if and only if it is overdue, or drained on a safe score and for single use; it is recycled, losing its date, if and only if it is drained, not overdue and not for single use; an unknown pod becomes idle if and only if registered; every other pod is left alone |
| PodModel.PoolingExactly | pkg/controllers/cnstore/pooling.go:42-106 | the same of every pod, time and configuration, told from the pod's own fields |
| StoreController.Controller.Observe | pkg/controllers/cnstore/controller.go:441-483 | one pass refreshes the score and then runs the phase machine, in this order even if the refresh fails; a draining pod it makes Idle was recycled on the pass's own quiet round, if that was recorded |
| StoreController.Controller.EvictPoolPodGracefully | pkg/controllers/cnstore/pooling.go:119-137 | the evicted pod is Terminating, so by `PoolHistory.DeadStaysDead` no claim takes it again; a direct pod, and no other, is put into its deletion lifecycle; its other labels, reclaim time and score and all other pods stay as they were |
| PodModel.ReclaimFacts | pkg/controllers/cnclaim/controller.go:320-357 | a pod given back has a reclaim time and no owner, and is Draining exactly unless the additional labels name the phase key |
| PodModel.TransferLeavesNothingToSync | pkg/controllers/cnclaim/controller.go:409-440 | after a transfer the new holder's ensureOwnership is a no-op if and only if its additional labels set no claim-set or owner label it does not have itself |
| PodObjects.PodObject.EnsureOwnership | pkg/controllers/cnclaim/controller.go:197-213 | editing the label map key by key, in any order of the additional labels, makes the pod the claim's whatever those labels say; for every key, whose value it then has |
| PodObjects.PodObject.Reclaim | pkg/controllers/cnclaim/controller.go:332-352 | the edited pod is nobody's and dated; nothing the claim added is left, the last owner replaces the owner, every other label keeps its value |
| PodObjects.PodObject.TransferOwnership | pkg/controllers/cnclaim/controller.go:409-440 | the edited pod is the new holder's, whatever the two claims' additional labels are; every label is told: no claim set or owner the new holder lacks, none of the old claim's labels, the rest untouched |
| PoolProtocol.StepKeepsInv | pkg/controllers/cnclaim/controller.go:78-407 | every step of claims, pool, stores and environment keeps: a claim's pod is Bound to it, no claim has two pods, Draining pods are dated, Terminating is final, retired pods are Terminating, safe scores come from quiet rounds |
| PoolProtocol.NoHolders | pkg/controllers/cnclaim/controller.go:466-480 | in every reachable state no other claim names a pod a claim under finalization still owns, so the pod is drained and not moved |
| PoolHistory.RunKeepsInv | pkg/controllers/cnclaim/controller.go:65-76 | the invariant holds in every state of every interleaving |
| PoolHistory.NoTwoClaimsShareAPod | pkg/controllers/cnclaim/controller.go:146-195 | in every interleaving the existing pod that a non-deleting claim names is Bound and labelled with that claim, so no two such claims name the same pod |
| PoolHistory.StepEdge | pkg/controllers/cnstore/pooling.go:42-106 | the complete list of ways one step can change the phase, owner and reclaim time of a pod |
| PoolHistory.DeadStaysDead | pkg/controllers/cnstore/pooling.go:101-105 | a pod that is Terminating or has lost its phase stays so for the rest of every run |
| PoolHistory.RetiredIsNeverBound | pkg/controllers/cnpool/controller.go:141-173 | a pod the pool marked Terminating and listed for deletion is Terminating at every later moment at which it exists |
| PoolHistory.OwnedUntil | pkg/controllers/cnclaim/controller.go:320-357 | a pod that changes owner has a last moment with the first one |
| PoolHistory.DrainingUntil | pkg/controllers/cnstore/pooling.go:43-86 | a draining pod that is Bound later was recycled in between, with its reclaim time unchanged all along, after the minimum delay and on a safe score |
| PoolHistory.LatestRound | pkg/controllers/cnstore/controller.go:490-530 | a pod's score is what the last round recorded for the pod made of the score the pod had then, so it is safe exactly if that round was quiet |
| PoolHistory.ReboundOnlyAfterRecycling | pkg/controllers/cnstore/controller.go:441-483 | between two different owners a pod was given back, drained uninterrupted for at least the minimum delay and recycled to Idle on the score of a quiet round; no later round was recorded before the recycling, so the quiet round falls into the drain if and only if any recorded round does, and it does whenever the recycling pass recorded its round and took less than that delay |
| ClaimController.Cluster.SelectCN | pkg/controllers/cnclaim/controller.go:146-195 | an orphan is taken first; else the first listed idle pod that nobody names and that has not changed since it was listed, with every label set as it should be, unless an update fails otherwise first, which ends the pass; only the claimed pod changes; nothing is claimed and nothing failed exactly when all are named or changed |
| ClaimController.FinalizeDecision | pkg/controllers/cnclaim/controller.go:377-400 | with one ready holder the pod becomes that holder's, keeping its date and score and no label of the old claim; without a holder it is given back, dated and nobody's; every label is told; it stops, and only then, for a reason that really holds |
| ClaimController.Cluster.Finalize | pkg/controllers/cnclaim/controller.go:359-407 | a pass does that to exactly a prefix of the claim's pods and nothing to any other; it stops early only at a pod that is ambiguous, has an unready holder, an unreachable store or a failing patch; Done is reported exactly when no pod was left |
| ClaimController.FinalizedShrinks | pkg/controllers/cnclaim/controller.go:359-407 | the claim's pods after a pass are exactly the rest of the list, so a pass that gets past its first pod strictly shrinks them |
| ClaimPasses.ClaimActor.SyncBindPod | pkg/controllers/cnclaim/controller.go:221-266 | the claim names the pod exactly if it is bindable and store and spec are written, and counts as bound exactly if its status is, without making an outdated claim up to date |
| ClaimPasses.ClaimActor.Bind | pkg/controllers/cnclaim/controller.go:78-129 | a claim without a pod ends Bound to the pod it owns or Pending; it takes its orphan, or the first pod not passed over; a pod taken by a pass that stops half way stays its own |
| ClaimPasses.ClaimActor.Sync | pkg/controllers/cnclaim/controller.go:268-309 | a pod that has been gone for a while makes the claim Lost and clears its name, one that has ended makes it Lost, any other has every label renewed unless it changed since it was read |
| ClaimPasses.ClaimActor.Observe | pkg/controllers/cnclaim/controller.go:65-76 | a Lost claim is left alone; only this claim is ever written; an outdated claim with a pod stays outdated or is Lost |
| PoolScaling.EveryPodIsCountedOnce | pkg/controllers/cnpool/controller.go:93-110 | in-use, idle and terminating pods partition the list |
| PoolScaling.PendingExactly | pkg/controllers/cnpool/controller.go:112-121 | the pending claims are counted |
| PoolScaling.PoolActor.MarkPods | pkg/controllers/cnpool/controller.go:157-169 | exactly the picked pods whose update is accepted become Terminating, none of them in use at the server, and nothing else changes; the protocol invariant is kept |
| PoolScaling.PoolActor.Sync | pkg/controllers/cnpool/controller.go:93-177 | nothing happens beyond MaxPods; desired <= R <= max(old, desired); R is raised only within MaxPods; pending claims pause scale-in; the pods given up are idle, cheapest first; in a scale-in with every update accepted exactly maxIdle idle pods survive if and only if active pods reach the old size or maxIdle is 0, and then R is the desired size; refused updates only add survivors |
| PoolScaling.LosesItsOnlyIdlePod | pkg/controllers/cnpool/controller.go:150-169 | from a reached state of one idle pod and three replicas, a sync that may keep one idle pod marks it Terminating and lists it for deletion, so that fewer survive than allowed |
| PoolScaling.OrderIsTotalPreorder | pkg/controllers/cnpool/controller.go:433-459 | the pool's deletion order is a total preorder |
| PoolScaling.OrderIsLexicographic | pkg/controllers/cnpool/controller.go:433-459 | the order is that of a key: pods already going, not up yet, idle, others; unclaimed before claimed; younger before older |
| Sorting.SortBy | pkg/controllers/cnclaimset/controller.go:295-297 | sorting by a total preorder gives an ordered permutation |
| ClaimOrder.OrderIsLexicographic | pkg/controllers/cnclaimset/controller.go:299-348 | the branching comparator is negative exactly when the claim's key is lexicographically smaller, and zero exactly on equal keys |
| ClaimOrder.OrderIsTotalPreorder | pkg/controllers/cnclaimset/controller.go:299-348 | the comparator is antisymmetric in sign and transitive |
| ClaimSet.OwnedClaims.ScaleIn | pkg/controllers/cnclaimset/controller.go:216-259 | the owned claims split exactly into deleted and kept; migrating ones are kept; min(count, non-migrating) are deleted; nothing deleted comes after a kept non-migrating claim |
| ClaimSet.OwnedClaims.ScaleOut | pkg/controllers/cnclaimset/controller.go:164-182 | exactly count new claims are appended, none for a negative count, under distinct ids that no owned or lost claim has |
| ClaimSet.GenAvailableIds | pkg/controllers/cnclaimset/controller.go:350-369 | from any draws, distinct unused ids, found exactly when the draws hold enough of them |
| ClaimSet.OwnedClaims.Scale | pkg/controllers/cnclaimset/controller.go:129-162 | on every list: too many ready claims lead to a cut back, otherwise the list only grows, to the target or not at all; on lists whose ready claims have pods the counts of pending, outdated and updated claims become what `ScaledParts` says and migrating claims stay, however the sort breaks ties |
| ClaimSet.KeptCounts | pkg/controllers/cnclaimset/controller.go:216-259 | cutting back takes pending claims before outdated ones and those before up-to-date ones, and none that migrates |
| ClaimSet.ReadyFloorExactly | pkg/controllers/cnclaimset/controller.go:216-259 | with claims migrating, a cut back leaves enough ready claims if and only if no migrating claim is pending, or pending claims at rest suffice for the cut, or the migrating claims alone are ready enough |
| ClaimSet.ReadyFloorOnLists | pkg/controllers/cnclaimset/controller.go:216-259 | the same on the claims themselves, for every outcome of the step |
| ClaimSet.ReadyFloorBreaks | pkg/controllers/cnclaimset/controller.go:216-259 | two ready claims and a migrating pending one, with one wanted: every outcome of the step leaves fewer ready claims than wanted |
| ClaimSet.ScalingIsSafe | pkg/controllers/cnclaimset/controller.go:129-162 | ready claims never fall below the wanted number, and none is lost while they are too few; creation stops at one past it |
| ClaimSet.RoundApproaches | pkg/controllers/cnclaimset/controller.go:129-162 | a measure in which outdated claims weigh most decreases in every round of an unfinished rollout |
| ClaimSet.RolloutConverges | pkg/controllers/cnclaimset/controller.go:129-162 | from any fleet, rounds of scaling and binding, however many claims bind at a time, end in exactly the wanted up-to-date claims and stay there |
| ClaimSet.RolloutIsSafe | pkg/controllers/cnclaimset/controller.go:129-162 | along every such rollout the ready claims, once enough, stay enough, and the claims never exceed what they were or one past the wanted number |
| ClaimSet.ClaimSetRollsOut | pkg/controllers/cnclaimset/controller.go:129-259 | the same on the claims themselves, for every tie of the sort, every draw of ids and every choice of claims that become Bound: ready claims once enough stay enough, the list stays within its bounds and ends as exactly the wanted number of claims, all up to date with a pod |
| Failover.FailoverStatus.CollectStoreStatus | pkg/controllers/common/failover.go:35-73 | the new status lists every observed pod once, available or failed, with its transition time carried over only if the phase is unchanged |
| Failover.EveryPodIsListedOnce | pkg/controllers/common/failover.go:35-73 | every observed pod is among the available stores exactly if it is available and among the failed ones otherwise, with its transition time kept exactly if its phase is unchanged, and nothing else is listed |
| Failover.FailoverStatus.StoresFailedFor | api/core/v1alpha1/common_helpers.go:196-205 | exactly the failed stores whose phase is at least the timeout old, in order |
| Failover.TransitionTimeOpensRun | pkg/controllers/common/failover.go:35-73 | over any observations a store's transition time is the time of the first observation in its current unbroken run of the same phase |
| Failover.FailedSinceTransition | pkg/controllers/common/failover.go:35-73 | a failed store was seen Down in every observation since its transition time |
| LogSet.WithResources.Repair | pkg/controllers/logset/controller.go:217-261 | reserved ordinals change exactly if failover is enabled, at most half of the replicas are failed, fewer than half are reserved, and the first overdue store's name parses and all writes succeed; then exactly its ordinal is added; the same store is orphaned before, and gossip addresses follow only a reservation |
| LogSet.CandidateExactly | pkg/controllers/logset/controller.go:217-234 | a pod is the candidate if and only if the repair may evict and it is the first overdue store in order |
| LogSet.ReservedOnlyInMinority | pkg/controllers/logset/controller.go:217-261 | in every run a pass that reserves an ordinal had failover enabled, judged at most half of the replicas failed, and took the first overdue store |
| LogSet.OnlyAMinorityIsEvicted | pkg/controllers/logset/controller.go:217-267 | in every run at most half of the log shard replicas, rounded down, are reserved, all distinct, and none is given up |
| LogSet.BootstrappedHalfSurvives | pkg/controllers/logset/bootstrap.go:78-110 | in every run at least n - n/2 of the bootstrapped ordinals are never evicted |
| LogSet.EvictedWasDownThroughout | pkg/controllers/logset/controller.go:231-261 | every reserved ordinal belongs to a pod that was Down in every observation written back, and in the evicting one, from one at least the failure timeout before the repair; and in all observations exactly if no lost one saw it otherwise; the clock is read anew for the repair |
| LogSet.LostStatusHidesRecovery | pkg/controllers/logset/controller.go:90-112 | three passes in which a status that is not written back hides a recovery from the eviction |
| Bootstrap.LogSetObject.Bootstrap | pkg/controllers/logset/bootstrap.go:78-110 | a recorded decision is final; a first one takes the first n ordinals under distinct ids of the range, and is refused exactly when the range is too small or the update fails |
| Ordinals.UnreservedOrdinals | pkg/controllers/logset/configmap.go:295-325 | for every reserved list the loop ends with the r smallest unreserved ordinals in increasing order |
| Ordinals.SmallestUnreservedIsUnique | pkg/controllers/logset/configmap.go:295-325 | that list is determined, so both address lists agree |
| Ordinals.ReservingOneShifts | pkg/controllers/logset/configmap.go:295-325 | reserving a listed ordinal removes its entry and appends one larger ordinal, leaving all others in place and order |
| Buckets.MarksAreDistinct | api/core/v1alpha1/bucketclaim_helpers.go:75-77 | different log sets have different marks |
| Buckets.ContainFinalizerPrefix | api/core/v1alpha1/bucketclaim_helpers.go:140-147 | true exactly when some finalizer starts with the prefix |
| Buckets.StepKeepsInv | pkg/controllers/logset/bucketclaim.go:49-161 | every version ever written of a bucket is in use exactly when it is bound, and guarded by the data finalizer then |
| Buckets.StepEdge | api/core/v1alpha1/bucketclaim_helpers.go:79-138 | a step changes an existing bucket only by what its action makes of the current content or by a deletion mark, and never removes a bucket in use |
| Buckets.ReleasedOnlyWhenUnoccupied | pkg/controllers/logset/bucketclaim.go:113-135 | a bucket changes to Released or Deleting only by a finalization of its holder, or of anyone if it is free, with no CN or DN finalizer on it at that moment |
| Buckets.InUseExactlyWhenBound | pkg/controllers/logset/bucketclaim.go:49-161 | in every interleaving State is InUse exactly when BindTo is not empty |
| Buckets.HeldUntilFinalized | pkg/controllers/logset/bucketclaim.go:70-135 | a bucket bound to a log set stays bound to it until that log set's own finalization commits |
| Buckets.DeletingWasGivenUp | pkg/controllers/logset/bucketclaim.go:128-135 | a version in state Deleting exists only after a log set with policy Delete gave the bucket up |
| Buckets.JobOnlyAfterDeletePolicy | pkg/controllers/bucketclaim/controller.go:64-112 | a data-deleting job is requested for a bucket only after a finalization of that bucket with policy Delete committed |
| Buckets.RetainNeverDeletes | pkg/controllers/bucketclaim/controller.go:64-112 | if no log set with policy Delete finalizes the bucket, no run requests a job for it, whenever the claim is deleted |
| BucketData.DataIsSafeExactly | pkg/controllers/logset/bucketclaim.go:60-161 | over every run: no log set ever holds a storage whose data is or may be deleted, by whatever claim, if and only if no step creates or syncs a claim on a doomed storage and none writes an entitling version of a storage that another held claim has |
| BucketData.SafeExactly | pkg/controllers/bucketclaim/controller.go:64-112 | in a state, safety says exactly that no held storage has a job and no pass of the claim controller, on whatever version of whatever claim, can request one |
| BucketData.StepKeepsSafeExactly | pkg/controllers/logset/bucketclaim.go:60-161 | from a safe state a step leads to a safe one if and only if it does not endanger data in one of these two ways |
| BucketData.CarefulLogSetsKeepTheirData | api/core/v1alpha1/bucketclaim_helpers.go:45-62 | log sets that create a claim only for a storage no claim has ever stood for, and take only versions of their own storage without deletion timestamp, never hold a storage whose data is or may be deleted |
| BucketData.RetakenWhileDeleting | pkg/controllers/logset/bucketclaim.go:70-84 | the code takes doomed storages: from any state in which a job is due, any log set can come to hold the bucket while its data is deleted |
| BucketData.SecondClaimLosesItsData | pkg/controllers/logset/bucketclaim.go:128-161 | the code dooms held storages: whenever two log sets hold claims of one storage, the finalization of one with policy Delete leads to a job on the other's data |
| BucketData.TwoClaimsOfOneStorage | pkg/controllers/logset/bucketclaim.go:141-161 | a run from the empty server in which two log sets create claims of one storage, reaching the premises of both lemmas above and the loss of the second log set's data |
| Buckets.Controllers.SyncBucketClaim | pkg/controllers/logset/bucketclaim.go:49-85 | on a current bucket it succeeds exactly if the log set may hold it and the server lets it be guarded; then it is in use, the log set's, guarded and for its storage, otherwise as it was; without a bucket it creates one for the log set |
| Buckets.Controllers.FinalizeBucketClaim | pkg/controllers/logset/bucketclaim.go:90-138 | on a current bucket it succeeds exactly if the log set holds it or nobody does and it is unoccupied; then it is Deleting and under deletion, or gone, with policy Delete, and Released with Retain, otherwise as it was; without success nothing changes |
| Buckets.Controllers.FinalizeClaimObject | pkg/controllers/bucketclaim/controller.go:64-143 | the claim is let go if and only if the version read is current, not in use, and was released, never ran or has its job succeeded, and then it has lost its data finalizer; a job is requested exactly for a Deleting claim that ran and has none; a failure changes only the reason of the condition |
| Buckets.LetsGoExactly | pkg/controllers/bucketclaim/controller.go:64-128 | a step takes the data finalizer or the claim if and only if it is such a finalization of the current version |
| Buckets.GuardedUntilItMayGo | pkg/controllers/bucketclaim/controller.go:64-128 | over every run a guarded claim stays guarded until a finalization finds it released, never used or with its job succeeded |
| Buckets.DataGoneBeforeTheClaim | pkg/controllers/bucketclaim/controller.go:101-128 | in every run a Deleting claim that has run loses its data finalizer, or goes, only by a finalization whose job succeeded |
| Buckets.Controllers.AddBucketFinalizer | api/core/v1alpha1/bucketclaim_helpers.go:79-107 | the finalizer is on the bucket afterwards and nothing else changed, unless the version was stale or the bucket is under deletion |
| Buckets.Controllers.RemoveBucketFinalizer | api/core/v1alpha1/bucketclaim_helpers.go:109-138 | the finalizer, and only it, is gone afterwards, unless the version was stale |
| Buckets.Controllers.SetBucketEverRunning | api/core/v1alpha1/bucketclaim_helpers.go:173-183 | the mark is set once and nothing else changes |
| Toml.GetAfterSet | api/core/v1alpha1/toml_config.go:183-235 | reading a path that was just written gives the value |
| Toml.SetKeepsUnrelated | api/core/v1alpha1/toml_config.go:196-235 | writing a path changes no path that is neither its prefix nor its extension |
| Toml.GetAfterDelete | api/core/v1alpha1/toml_config.go:45-76 | a deleted path reads as nil |
| Toml.DeleteKeepsUnrelated | api/core/v1alpha1/toml_config.go:60-76 | deleting a path changes no unrelated path |
| Toml.SetIsNoOp | api/core/v1alpha1/toml_config.go:214-235 | writing a value where it already is changes nothing |
| TomlIdempotence.MergeIsIdempotent | api/core/v1alpha1/toml_config.go:97-179 | merge(merge(b, o), o) = merge(b, o) when override entries have distinct non-empty names that occur at most once in the base lists they meet |
| TomlIdempotence.SelfMergeExactly | api/core/v1alpha1/toml_config.go:97-179 | a value absorbs a merge with itself if and only if its named lists have distinct non-empty names |
| TomlMerge.AmbiguousBaseChurns | api/core/v1alpha1/toml_config.go:153-179 | a base and an override that alternate between two results for ever |
| TomlIdempotence.IdempotentExactly | api/core/v1alpha1/toml_config.go:97-179 | for every base and override merge(merge(b, o), o) = merge(b, o) if and only if the base settles the override: distinct non-empty names in the override's lists, and every further base entry of a matched name already a copy of the merged one, copies leading in the override's order |
| TomlIdempotence.IdempotentIsWellNamed | api/core/v1alpha1/toml_config.go:127-179 | an override that is idempotent on any base at all is well named; on a base that has each matched name once the two are equivalent |
| TomlIdempotence.RepeatedNameChurns | api/core/v1alpha1/toml_config.go:153-179 | a second base entry of a matched name that differs from the merged entry, or merges to something else, makes the second merge differ from the first, wherever it stands |
| TomlMerge.OverrideReadsBack | api/core/v1alpha1/toml_config.go:97-123 | every scalar or unnamed list of the override is found at its path in the merge |
| TomlMerge.BaseReadsBack | api/core/v1alpha1/toml_config.go:97-123 | a path that leaves the override at a missing key keeps its base value |
| TomlMerge.DeepMergeMap | api/core/v1alpha1/toml_config.go:97-123 | the loop over the override's keys computes the merge in whatever order the keys come |
| TomlMerge.MergeNamedMapSlice | api/core/v1alpha1/toml_config.go:153-179 | the index, merge and leftover loops give the override's entries, each merged into its last namesake, followed by the unmatched base entries in order |
| TomlMerge.NamedListReadsBack | api/core/v1alpha1/toml_config.go:153-179 | each entry of the override comes in its place under its name, with every scalar it sets and whatever its match has besides |
| TomlMerge.UnmatchedKeepOrder | api/core/v1alpha1/toml_config.go:168-179 | the base entries no override entry was merged into, and only those, follow in their order and as they were |
| TomlConfigs.TomlConfig.Set | api/core/v1alpha1/toml_config.go:183-188 | the object's tree is the old one with the path written, and a nil root becomes a table |
| TomlConfigs.TomlConfig.MergeDeep | api/core/v1alpha1/toml_config.go:90-95 | the object's tree is the merge of the old one with the override |
| TomlConfigs.TomlConfig.Del | api/core/v1alpha1/toml_config.go:60-76 | the object's tree is the old one without the path, and a nil root stays nil |
| CNConfig.BuildIsIdempotent | pkg/controllers/cnset/resource.go:282-311 | a merge that is idempotent, followed by writes to pairwise unrelated paths the override does not mention, is idempotent |
| CNConfig.BuildIsIdempotentExactly | pkg/controllers/cnset/resource.go:282-311 | such a build is idempotent if and only if the config settles the override |
| CNConfig.FileServiceConfigMergesCleanly | pkg/controllers/common/fileservice.go:104-202 | the file service override has distinct names and flat entries for every storage provider and cache |
| CNConfig.CNSettingsAreUnrelated | pkg/controllers/cnset/resource.go:282-311 | for every CN set the paths the builder writes are pairwise unrelated and apart from the override's keys |
| CNConfig.CNConfigIsStable | pkg/controllers/cnset/resource.go:278-311 | building the CN config again from its own output changes nothing if the config names the operator's file services at most once |
| CNConfig.CNConfigIsStableExactly | pkg/controllers/cnset/resource.go:278-311 | for every spec and config, building again from the output changes nothing if and only if the config has no file service list or one that settles the operator's |
| CNConfig.CNConfigChurns | pkg/controllers/cnset/resource.go:278-311 | a config that names LOCAL, S3 or ETL a second time with an entry other than the merged one, or one that merges differently, is not stable, for every spec |
| CNConfigReads.BuildInPlace | pkg/controllers/cnset/resource.go:278-311 | the shared config object holds the built config afterwards, and reads as asked |
| CNConfigReads.BuiltReadsAsAsked | pkg/controllers/cnset/resource.go:278-311 | for every spec and user config the built config reads the discovery address or the service addresses as the version demands, every other key of the operator as specified, the file services as the storage asks, and at every other path what the user configured |
| CNConfigReads.RequiredRead | pkg/controllers/cnset/resource.go:287-299 | service type, discovery address or service addresses, role, lock service address and port base read as specified |
| CNConfigReads.OptionalRead | pkg/controllers/cnset/resource.go:300-313 | metrics, Python UDF address and initial work state read as specified when asked for |
| CNConfigReads.UsersKeysRead | pkg/controllers/cnset/resource.go:278-313 | any path unrelated to those written reads as in the user's config |
| CNConfigReads.FileServicesRead | pkg/controllers/common/fileservice.go:104-202 | whatever the user's list was, the first three entries are LOCAL, S3 and ETL with the backend, place, bucket, key prefix, endpoint, region, certificates and cache limits the storage calls for |
| ConfigFiles.FileKeyContains | pkg/controllers/cnset/resource.go:341-343 | a config file name contains a digest exactly if it is named by it |
| ConfigFiles.ConfigInUse | pkg/controllers/common/configmap.go:135-143 | true exactly when some pod's non-empty suffix occurs in the key |
| ConfigFiles.EnsureConfigMap | pkg/controllers/common/configmap.go:80-112 | the stored files are the wanted ones with the old ones that carry the digest of their content and are in use, whatever the order of the loop |
| ConfigFiles.EveryFileIsNamed | pkg/controllers/common/configmap.go:80-143 | after any syncs every file but the start script is the config of an earlier sync under its own digest, in use ever since |
| ConfigFiles.DueConfigIsStored | pkg/controllers/common/configmap.go:80-143 | a config in use at every sync since it was written is stored unchanged; the newest one always is |
| ConfigFiles.StoredExactly | pkg/controllers/common/configmap.go:80-143 | a file is stored after any syncs if and only if it is the newest script or a config in use ever since it was written |
| ConfigFiles.PodKeepsItsConfig | pkg/controllers/common/configmap.go:80-148 | a pod that every sync lists keeps the file its suffix names, with its content |
| ConfigFiles.InUseByDigest | pkg/controllers/common/configmap.go:135-143 | when suffixes are digests, a file is in use exactly when some pod has its digest |
| Identity.WordHasFourDigits | api/core/v1alpha1/common_helpers.go:228-234 | each word of two hex characters is at least 0x3030 and prints in four digits without padding |
| Identity.GetCNPodUUID | api/core/v1alpha1/common_helpers.go:224-235 | the operator's text equals what the pod's start script computes with `od -x` |
| Identity.ScriptUUIDFacts | pkg/controllers/cnset/resource.go:46 | for every digest the identity is a 36-character 8-4-4-4-12 hex text as in section 4 of RFC 9562 |
| Identity.ScriptUUIDSpells | pkg/controllers/cnset/resource.go:46 | the text spells the first sixteen digest characters by their codes, every pair in reverse |
| Identity.UUIDIsInjective | api/core/v1alpha1/common_helpers.go:224-235 | two identities are equal if and only if the first sixteen digest characters are |
| Identity.EncodeOrdinalIsInjective | pkg/controllers/logset/bootstrap.go:122-125 | different ordinals have different identities |
| Identity.OrdinalFormsAgree | pkg/controllers/logset/configmap.go:55 | the operator's form equals the start script's '0' plus eleven digits if and only if the ordinal is below 16^11 |

## Left out

- Attaching a claim without a pod to a matching pool, bound times and the store status of a claim.
- Claim migration (`pkg/controllers/cnclaim/migrate.go`): it starts from an outside edit of a claim and lets two claims name one pod, which the ownership invariant excludes.
- The order in which a claim prefers idle pods (`sortCNByPriority`): a claim may take the pods in any order here; that comparator looks at the second within the minute, so there is no age order to state.
- ClaimSet.OwnedClaims.Scale: for lists with a ready claim whose pod is gone only the split and its order are stated, not the counts, because the code compares presence of a pod before the phase; errors of the API calls are left out.
- ClaimSet.OwnedClaims.ScaleOut: the random draws are an input; that a search among too few ids never ends is its `None`.
- Failover.FailoverStatus.CollectStoreStatus: the optional callbacks that adjust a store are left out, because no caller passes any.
- TomlConfigs.TomlConfig.Del: as for `Set`.
- TomlConfigs.TomlConfig.Set: nested tables are values, so aliasing between nested maps of one config is not captured; lists of tables and lists of any values are one kind of list.
- Retirement of pods of legacy CN sets (`syncLegacySet`): it lists pods for deletion without marking them; only the number of in-use legacy pods enters the pool's sync.
- Draining of a store before deletion (`OnPreparingStop`, `completeDraining`) and lock migration.
- Relabelling of pods by the workload controllers below the operator.
- HAKeeper, lock service, query and SQL clients; Pod, Service, StatefulSet and CloneSet templates; overlays; start scripts other than their UUID lines.
- Admission webhooks, defaulting of retention policies, CRD types, generated code.
- Listing buckets by label, which fails when the cache shows two claims of one S3 path: the controllers act on any version of any claim here.
- Hash functions, TOML and JSON text, time formatting, splitting of S3 paths, decimal text of bootstrap seeds.
- The legacy config map without digest in its keys, and the configs of DN, log, proxy and web UI sets.
- Backup and restore, web UI, proxy and MatrixOneCluster controllers.
- 32-bit overflow of replica counts.
