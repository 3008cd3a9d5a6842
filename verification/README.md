# OSCAR in Dafny

OSCAR is a control plane for serverless jobs on Kubernetes. This project models the parts of it that decide
something, and proves what those decisions guarantee: which cluster a job is delegated to, what becomes of a
submitted event, who can see a bucket, what the metrics add up to, whether a volume fits its quota, whether a job
fits a node, and what the COMPSs example counts.

Each module states a simple reference definition (a ranking formula, a registry, a history, a per-service
query, a map, a left-to-right fold), gives the code in its own form (loops, objects whose fields change), proves
the code equal to or a refinement of the reference, and proves the promised laws about the reference.

| module | what it models |
|---|---|
| `Topsis` | TOPSIS scoring of replicas over `real` and NaN; `math.Sqrt` is a parameter with its defining relation |
| `PriorityMap` | `mapToRange` with Go's wrapping 64-bit arithmetic and truncating division |
| `Ranking` | sorting by preference, the threshold shuffle, the final priorities |
| `Delegation` | priorities from cluster status, the stable order, the try-in-order loop |
| `TokenCache` | the nested token cache against a history of fetches |
| `EventChain` | what every cluster of a delegation chain receives |
| `JobLifecycle` | submissions interleaved with rescheduler rounds, as a state machine |
| `BucketPolicies` | visibility kept only in MinIO policies, against a registry of buckets |
| `Metrics` | the single-pass breakdown, the simple queries and scoping |
| `ExecutionLog` | one printer and two parsers of the execution line |
| `VolumeQuota` | visible and raw quotas, creation and deletion of volumes, quota update |
| `Yunikorn` | the nested queue configuration as a map |
| `NodeCapacity` | two computations of what a node still offers |
| `MergeReduce` | the rotating queue reduction of the word count example |
| `Ordering`, `Text`, `Options` | string order and sorted listings, Go string functions, `Option` |

## Where the code does not do what it is meant to do

The model follows the code. These are theorems about it:

- Writing TOPSIS priorities back by the 1-based alternative number overruns the replica list for every
  non-empty list of replicas (`Ranking.WriteBackOverruns`), so TOPSIS mode ends in a panic.
- The answer to a request that is repeated after a 401 never counts (`Delegation.RetriesNeverCount`,
  `Delegation.RetryAnswerIgnored`). Success agrees with somebody having taken the job exactly when some first
  answer accepts or no contacted oscar replica answers 401 and then 201 (`Delegation.SuccessAgreesExactly`);
  otherwise the job is also created here and runs twice (`JobLifecycle.CreatedDespiteTakerExactly`).
- An event that is not empty and does not decode to an object or null is posted to a replica as empty text.
  When a replica takes that, the submitter gets 201 and the event is gone (`JobLifecycle.UnreadableLost`,
  `JobLifecycle.PlainTextLost`). Exactly the other events are never lost (`JobLifecycle.NoEventLostExactly`): the
  empty one arrives as it is, and an object that names a storage provider but is no textual delegated event
  makes the delegation panic, so it is never posted (`EventChain.PostedCarriesExactly`).
- More free CPU gives a priority that is no worse exactly while a hundred times the millicores fits an int64;
  one millicore further the best cluster is ranked last (`PriorityMap.AntitoneExactly`,
  `PriorityMap.OverflowInverts`).
- `mergeReduce` documents a left-to-right combination. It combines a rotation of its inputs; every associative
  function gives the documented result on n inputs exactly when n is a power of two
  (`MergeReduce.OrderKeptExactly`). The word count is not affected, because its combination is commutative.
- A variable named EVENT that a service defines itself hides the submitted event from the rescheduler
  (`JobLifecycle.EventKeptExactly` says exactly when the event survives).
- The visible quota check agrees with the raw quota for all positive sizes; for other sizes it disagrees exactly
  when the count fits and the disk is over its quota (`VolumeQuota.CheckAgreesExactly`). The handler refuses
  such sizes beforehand.
- The items' request totals miss the summary's total exactly when some record is neither synchronous nor
  asynchronous, and their exposed totals exactly when an exposed record names no service
  (`Metrics.RequestTotalExactly`, `Metrics.ExposedTotalExactly`).
- Without a default partition that holds a root queue, queue changes go to a detached object and are lost
  (`Yunikorn.AddTakesEffectExactly`).
- A visibility text other than the three known ones makes a bucket public; exactly the known ones read back as
  given (`BucketPolicies.ReadBackExactly`, `BucketPolicies.CapitalisedIsPublic`).
- Any user may change a public bucket and take it over; `BucketPolicies.OwnerKeptExactly` says exactly when the
  recorded owner may still change it, and `BucketPolicies.TakenOver` what the owner then sees.
- Unsetting a restricted bucket without members fails half way: the call that should empty its group removes
  the group, so the call that should remove it fails (`BucketPolicies.UnsetSucceedsExactly`). The bucket reads
  restricted for ever and nobody may change it (`BucketPolicies.OrphanLeft`, `BucketPolicies.OrphanStays`).
- On log lines with a Kubernetes timestamp in front the two parsers agree on the time exactly when a time can be
  read out of timestamp, prefix and time together, which no RFC 3339 time is (`ExecutionLog.StampedAgreement`).
- TOPSIS yields NaN for every replica exactly when some criterion is zero everywhere or all replicas measure the
  same, so always for a single replica (`Topsis.NumberExactly`).
- The two node computations differ exactly when a pod reserves something beyond its application containers
  (`NodeCapacity.StatusIsConservative`).

## Assumptions

- `math.Sqrt` returns the non-negative root of a non-negative number. Arithmetic is over `real` with NaN; the
  weights are positive, as the code's are.
- Answers of clusters, endpoints and the Kubernetes API, random draws and shuffles are parameters, so results
  hold for all of them. A status request that could be built gets an answer, since the source reads the
  response before it looks at the error.
- `encoding/json` decodes an encoded delegated event to its two fields and rejects the empty text. Times,
  numbers and Kubernetes quantities (integers in nanos) print and parse exactly. Codecs with these properties
  exist (`EventChain.CodecsExist`, `VolumeQuota.CodecExists`, `ExecutionLog.CodecExists`).
- User names, bucket names and the name of the group of all users do not overlap, and no bucket name ends in
  `notValid`. MinIO policy calls succeed when the policy exists. Adding to a group creates it; removing members
  needs an existing group; removing nobody removes a group without members and is an error for any other, as on
  MinIO's server. The member list is what the server reports.
- Job names are fresh, a listed pod carries the specification of the job it belongs to, and the rescheduler
  reads the service of every pod successfully.
- A namespace's LimitRange has one item; configured volume limits are quantities.

## Model

| member | source | states |
|---|---|---|
| `Topsis.NormalizeMatrix` | pkg/resourcemanager/delegate.go:93-114 | every entry is divided by the Euclidean norm of its column; a column of norm zero becomes NaN |
| `Topsis.WeightMatrix` | pkg/resourcemanager/delegate.go:117-128 | every entry is multiplied by the weight of its column, NaN stays NaN |
| `Topsis.CalculateSolutions` | pkg/resourcemanager/delegate.go:131-168 | ideal and anti-ideal of every numeric column are its least and greatest entry, exchanged for the criteria 0, 4 and 5 that are minimised; comparisons with NaN are false |
| `Topsis.Bracketed` | pkg/resourcemanager/delegate.go:139-165 | every entry lies between the ideal and the anti-ideal of its column, on the side the criterion demands |
| `Topsis.CalculateDistance` | pkg/resourcemanager/delegate.go:171-177 | the Euclidean distance: on rows of one entry the absolute difference, over any split of the columns the squares add up; NaN if and only if an entry is NaN |
| `Topsis.DistanceLaws` | pkg/resourcemanager/delegate.go:171-177 | the two laws that determine the distance: the absolute difference of one entry, and squares that add up over any split of the columns |
| `Topsis.Triangle` | pkg/resourcemanager/delegate.go:171-177 | the triangle inequality |
| `Topsis.DistanceZero` | pkg/resourcemanager/delegate.go:171-177 | that distance is never negative and is zero if and only if the rows are equal |
| `Topsis.CalculatePreferences` | pkg/resourcemanager/delegate.go:180-190 | every preference times the sum of the two distances is the distance from the anti-ideal; NaN when that sum is zero or a distance is NaN |
| `Topsis.SpreadZero` | pkg/resourcemanager/delegate.go:184-187 | the divisor of a preference is zero if and only if all rows are equal |
| `Topsis.PreferenceExactly` | pkg/resourcemanager/delegate.go:180-190 | the preference is the share of the distance from the worst values in the two distances |
| `Topsis.NormZero` | pkg/resourcemanager/delegate.go:103-110 | the norm of a column is zero if and only if all its entries are |
| `Topsis.NormLaws` | pkg/resourcemanager/delegate.go:103-110 | the norm of a single entry is its absolute value, and over any split of the rows the squares add up |
| `Topsis.NumberExactly` | pkg/resourcemanager/delegate.go:93-190 | the code yields a number, the reference preference, if and only if no criterion is zero everywhere and two replicas differ; otherwise every replica gets NaN |
| `Topsis.PreferenceInUnitInterval` | pkg/resourcemanager/delegate.go:180-190 | every preference lies between 0 and 1 |
| `Topsis.DominanceRespected` | pkg/resourcemanager/delegate.go:93-190 | a replica no worse on every criterion scores no lower, and strictly higher when the measurements differ |
| `Topsis.UnreachableNeverOutranks` | pkg/resourcemanager/delegate.go:276-417 | with the weights of the code, the sentinel row of an unreachable cluster scores below every row within the sentinel's bounds |
| `Topsis.UnitIndependence` | pkg/resourcemanager/delegate.go:93-128 | multiplying a criterion by a positive constant changes no preference |
| `Topsis.PreferencesOrdered` | pkg/resourcemanager/delegate.go:845-872 | all preferences of a matrix are in range and in dominance order |
| `Topsis.TopsisMethod` | pkg/resourcemanager/delegate.go:845-872 | on such a matrix the composed steps return the reference preference of every replica, within 0..1 and in dominance order; on every other matrix all preferences are NaN |
| `PriorityMap.MapToRange` | pkg/resourcemanager/delegate.go:832-843 | the result stays in the output range even when the intermediate arithmetic wraps around |
| `PriorityMap.LoadPriorityExact` | pkg/resourcemanager/delegate.go:794-799 | without overflow a cluster loses one priority point per 320 free millicores, clamped to 0..100 |
| `PriorityMap.AntitoneExactly` | pkg/resourcemanager/delegate.go:797-797 | more free CPU never gives a worse priority on a range if and only if the range stays within the overflow bound |
| `PriorityMap.OverflowInverts` | pkg/resourcemanager/delegate.go:833-833 | one millicore beyond the bound the order is inverted |
| `PriorityMap.PreferencePriorityExact` | pkg/resourcemanager/delegate.go:899-899 | a preference between 0 and 1 becomes 100 minus its whole percentage |
| `Ranking.SortSlice` | pkg/resourcemanager/delegate.go:205-207 | a rearrangement, descending if all preferences are numbers, ties in any order |
| `Ranking.Shuffle` | pkg/resourcemanager/delegate.go:239-241 | some rearrangement, for every sequence of draws |
| `Ranking.SortAlternatives` | pkg/resourcemanager/delegate.go:193-210 | every replica with its 1-based number and preference, best first if the preferences are numbers |
| `Ranking.DistancesFromBetter` | pkg/resourcemanager/delegate.go:212-221 | the distance of every other alternative from the first |
| `Ranking.NearCount` | pkg/resourcemanager/delegate.go:230-234 | the length of the leading block whose distances stay below the threshold |
| `Ranking.NearIsPrefix` | pkg/resourcemanager/delegate.go:230-234 | on a descending list an alternative is near the best if and only if it is in the leading block, that is, above the best less the threshold |
| `Ranking.CollectNearby` | pkg/resourcemanager/delegate.go:226-234 | the first loop lists exactly the alternatives at near positions, in order |
| `Ranking.Rearrange` | pkg/resourcemanager/delegate.go:243-256 | the second loop fills near positions from the shuffled ones and keeps every other alternative in place |
| `Ranking.ReorganizeIfNearby` | pkg/resourcemanager/delegate.go:224-257 | for any distances the result is a rearrangement that moves only alternatives at near positions |
| `Ranking.ReorganizeSorted` | pkg/resourcemanager/delegate.go:886-894 | each replica still appears once; on a descending list the near-best block comes first and the rest in descending order |
| `Ranking.ReplaceByPriority` | pkg/resourcemanager/delegate.go:896-902 | every preference between 0 and 1 becomes 100 minus its whole percentage, every other one a priority in 0..100, and the order is kept |
| `Ranking.SortByThreshold` | pkg/resourcemanager/delegate.go:874-906 | for every shuffle, and for NaN too, the result is a permutation of 1..n with priorities in 0..100, 100 minus the whole percentage where the preference lies between 0 and 1; if the preferences are numbers the leading block is within the threshold of the best and the rest follows in descending order |
| `Ranking.RearrangedOnce` | pkg/resourcemanager/delegate.go:193-210 | any rearrangement of the alternatives numbers every replica exactly once and keeps its preference |
| `Ranking.FirstIsBest` | pkg/resourcemanager/delegate.go:205-207 | the first alternative of a descending rearrangement has the best preference |
| `Ranking.BlockThenRest` | pkg/resourcemanager/delegate.go:224-257 | exactly the alternatives within the threshold form the leading block |
| `Ranking.HeadNearBest` | pkg/resourcemanager/delegate.go:889-894 | with the threshold of 20 percent the head is a best replica or scores above 80 percent of the best, and everyone above 80 percent is in the block |
| `Ranking.BestInBlock` | pkg/resourcemanager/delegate.go:227-241 | a best replica is always in the leading block |
| `Ranking.DominancePriority` | pkg/resourcemanager/delegate.go:416-425 | a replica no worse on every criterion never ends with the worse priority |
| `Ranking.WriteBackOverruns` | pkg/resourcemanager/delegate.go:424-424 | every ranking, of numbers or NaNs, holds a number that is no position of the replica list |
| `Ranking.RankReplicas` | pkg/resourcemanager/delegate.go:415-425 | for every matrix each replica is numbered once with a priority in 0..100; on an informative matrix it is 100 minus the whole percentage of its preference, dominance is respected and the replicas within 20 percent of the best come first; some number is always beyond the replica list |
| `Delegation.Service.UpdatedReplica` | pkg/resourcemanager/delegate.go:687-830 | one replica's branches agree with the priority table |
| `Delegation.Service.GetClusterStatus` | pkg/resourcemanager/delegate.go:687-830 | load-based: an oscar replica gets its mapped priority in 0..100 if its defined cluster answered 200 with a node that has a thousand times the CPU in millicores, 101 otherwise; random: its draw in the same case; static: nothing changes; any other mode: 101; only priorities of oscar replicas change |
| `Delegation.Service.OrderReplicas` | pkg/resourcemanager/delegate.go:433-437 | the list ends sorted by priority with equal priorities in their previous order |
| `Delegation.StableSortUnique` | pkg/types/replica.go:49-61 | there is only one such list |
| `Delegation.StableSortMembers` | pkg/types/replica.go:49-61 | it holds the same replicas |
| `Delegation.StableSortLength` | pkg/types/replica.go:49-61 | and as many |
| `Delegation.FirstTaker` | pkg/resourcemanager/delegate.go:458-596 | the first eligible replica whose first answer accepts, nobody before it does |
| `Delegation.Service.TryReplicas` | pkg/resourcemanager/delegate.go:458-596 | succeeds if and only if an oscar replica below 101 in a defined cluster first answers 201 or an endpoint first answers 200; the contacts are exactly the reachable eligible replicas up to the first such answer |
| `Delegation.Service.DelegateJob` | pkg/resourcemanager/delegate.go:430-597 | assigning, ordering and trying composed: the stable order of the assigned priorities, success and contacts as for the loop with the codes written out, and every contacted oscar replica belongs to a cluster that can host the service unless the mode is static |
| `Delegation.ReachedExactly` | pkg/resourcemanager/delegate.go:458-519 | the contacted positions are exactly the eligible ones a request could be sent to, in order |
| `Delegation.ContactedExactly` | pkg/resourcemanager/delegate.go:458-596 | nobody is contacted after an acceptance, nobody reachable is skipped before, no oscar replica of priority 101 is contacted |
| `Delegation.ContactedJustified` | pkg/resourcemanager/delegate.go:430-597 | every replica contacted is one of the given ones and, in a mode that assigns priorities, an oscar one only if its cluster answered with enough CPU |
| `Delegation.MoreFreeCPUFirst` | pkg/resourcemanager/delegate.go:433-437 | of two usable clusters the one with more free CPU is tried first unless their mapped priorities tie |
| `Delegation.RetriesNeverCount` | pkg/resourcemanager/delegate.go:525-542 | answers to repeated requests change neither the first taker nor the contacts |
| `Delegation.TakersExactly` | pkg/resourcemanager/delegate.go:515-542 | who took the job: the first replica to accept and, besides, every contacted oscar replica that answers 401 and then 201 |
| `Delegation.SuccessAgreesExactly` | pkg/resourcemanager/delegate.go:515-596 | success means that somebody took the job, and failure that nobody did, if and only if some first answer accepts or no contacted oscar replica answers 401 and then 201 |
| `Delegation.TakenAtMostOnceExactly` | pkg/resourcemanager/delegate.go:515-596 | exactly when at most one replica takes the job |
| `Delegation.RetryAnswerIgnored` | pkg/resourcemanager/delegate.go:525-542 | a replica that answers 401 and then 201 took the job, and the result is an error |
| `TokenCache.Cache.constructor` | pkg/resourcemanager/delegate.go:48-49 | an empty cache |
| `TokenCache.Cache.CountTokens` | pkg/resourcemanager/delegate.go:622-625 | the loop counts the stored tokens of all endpoints |
| `TokenCache.Cache.UpdateServiceToken` | pkg/resourcemanager/delegate.go:620-685 | above 500 tokens everything else goes, otherwise everything else stays; a fetched token is stored for the key, a failed fetch stores nothing |
| `TokenCache.Cache.GetServiceToken` | pkg/resourcemanager/delegate.go:607-618 | a hit returns the last token fetched for the trimmed endpoint and service since the last flush and changes nothing |
| `TokenCache.StoredCount` | pkg/resourcemanager/delegate.go:676-682 | storing adds one token for a new endpoint and service and none otherwise |
| `TokenCache.RefreshAgrees` | pkg/resourcemanager/delegate.go:620-685 | a refresh keeps the cache equal to the history |
| `TokenCache.RefreshBounded` | pkg/resourcemanager/delegate.go:620-685 | after any refresh there are at most 501 tokens |
| `TokenCache.CacheFollowsHistory` | pkg/resourcemanager/delegate.go:607-685 | over every sequence of lookups and refreshes: at most 501 tokens, each the last fetched since the last flush |
| `TokenCache.SharedEndpoint` | pkg/resourcemanager/delegate.go:607-618 | endpoints that differ in surrounding blanks and slashes share their tokens: after a refresh at one a lookup at the other is a hit |
| `TokenCache.KeyTrims` | pkg/resourcemanager/delegate.go:608-608 | the key is what remains of an endpoint without surrounding blanks and slashes |
| `EventChain.WrappedOnce` | pkg/resourcemanager/delegate.go:958-1006 | a delegated event is forwarded unchanged by every cluster |
| `EventChain.OriginalForwarded` | pkg/resourcemanager/delegate.go:958-1006 | along a chain of any length every cluster forwards the original event wrapped once, with the first cluster as provider |
| `EventChain.FirstHopDecides` | pkg/resourcemanager/delegate.go:958-1006 | for every event, also unreadable or already wrapped ones, the first hop decides what all later clusters receive |
| `EventChain.PostedCarriesExactly` | pkg/resourcemanager/delegate.go:958-1006 | a request that carries the event goes out if and only if the event is empty, or decodes and names no storage provider or is a textual delegated event |
| `JobLifecycle.GetEvent` | pkg/resourcemanager/rescheduler.go:145-157 | the first EVENT variable of the service containers, or the empty text |
| `JobLifecycle.AddVariables` | pkg/handlers/job.go:301-311 | every service container gains EVENT, JOB_UUID and RESOURCE_ID at the end of its environment, other containers are untouched |
| `JobLifecycle.CarriedEvent` | pkg/resourcemanager/rescheduler.go:145-157 | what is read back from a job's pod, for every pod specification |
| `JobLifecycle.EventKeptExactly` | pkg/handlers/job.go:303-311 | the submitted event is read back if and only if the service defines no variable EVENT (or the same value) |
| `JobLifecycle.CollectInfos` | pkg/resourcemanager/rescheduler.go:79-143 | the work list holds exactly the pods labelled with service, threshold and job whose age exceeds the threshold, in order, with their events |
| `JobLifecycle.InfosFromPods` | pkg/resourcemanager/rescheduler.go:112-143 | every entry of the work list comes from a listed pod |
| `JobLifecycle.InfosExactly` | pkg/resourcemanager/rescheduler.go:79-143 | an entry is in the work list if and only if it comes from such a pod |
| `JobLifecycle.Cluster.constructor` | pkg/resourcemanager/rescheduler.go:44-45 | a cluster without jobs satisfies the invariant |
| `JobLifecycle.Cluster.HandleJob` | pkg/handlers/job.go:301-380 | a taken job is recorded with the body posted and not created; otherwise it is created with its event, or the answer is 500 and nothing changes; the invariant is kept |
| `JobLifecycle.Cluster.StartRound` | pkg/resourcemanager/rescheduler.go:46-54 | a round takes exactly the listed pods whose age exceeds the threshold on their label and which name a service and a job, with their events, and keeps the invariant |
| `JobLifecycle.Cluster.RescheduleNext` | pkg/resourcemanager/rescheduler.go:56-73 | when a body was posted, taken and the deletion succeeded exactly that job goes; in every other case the jobs stay; the entry leaves the list, a panic empties it |
| `JobLifecycle.StepKeeps` | pkg/resourcemanager/rescheduler.go:44-77 | every step, a crash included, keeps the invariant: each answered submission is held, ran or was taken, and every body taken is the one posted for its event |
| `JobLifecycle.ExecutionKeeps` | pkg/resourcemanager/rescheduler.go:44-77 | so does every execution |
| `JobLifecycle.FateOfEvents` | pkg/handlers/job.go:313-380 | for services that define no EVENT variable, over every interleaving and any crash each submission answered 201 is held by its job, ran, or was taken in the body posted for the event originally submitted; its event is safe if and only if the job is held or ran or the event is empty or decodes |
| `JobLifecycle.DeletedForGood` | pkg/resourcemanager/rescheduler.go:56-73 | over every execution a job that was deleted after a replica took it is in no later state |
| `JobLifecycle.GoneStays` | pkg/resourcemanager/rescheduler.go:44-77 | no step brings back a job of an answered submission that is gone |
| `JobLifecycle.SafeExactly` | pkg/handlers/job.go:313-320 | the same for one submission in any state that meets the invariant |
| `JobLifecycle.NoEventLostExactly` | pkg/handlers/job.go:313-380 | for services that define no EVENT variable, no execution loses a submission with a given event if and only if the event is empty or decodes to an object or null |
| `JobLifecycle.UnreadableLost` | pkg/handlers/job.go:313-320 | an event that is not empty and does not decode, when delegated, is answered 201, posted as empty text and held nowhere |
| `JobLifecycle.PlainTextLost` | pkg/handlers/job.go:313-320 | the plain text hello is such an event |
| `JobLifecycle.CreatedDespiteTakerExactly` | pkg/handlers/job.go:313-380 | a job is created here although a replica took it exactly when no first answer accepts and a contacted oscar replica answers 401 and then 201 |
| `BucketPolicies.MinIO.ResourceInPolicy` | pkg/utils/minio.go:510-532 | true if and only if the policy exists and lists the bucket |
| `BucketPolicies.MinIO.CreateAddPolicy` | pkg/utils/minio.go:566-612 | creates the policy, revives a denying one, or appends the resource; no other policy changes |
| `BucketPolicies.MinIO.Dropped` | pkg/utils/minio.go:694-699 | cuts out the first occurrence of a resource |
| `BucketPolicies.MinIO.RemoveResource` | pkg/utils/minio.go:676-717 | the last resource turns the policy into a denying one, otherwise one resource goes; fails if and only if there is no such policy |
| `BucketPolicies.MinIO.RemoveGroupPolicy` | pkg/utils/minio.go:720-740 | succeeds if and only if the group has a member, and then group and policy are gone; a group without members goes and its policy stays |
| `BucketPolicies.MinIO.SetPolicies` | pkg/utils/minio.go:344-365 | the owner's policy gains the bucket with all actions, or the all-users policy for public; a restricted bucket's own policy gains it with the four bucket actions and its group has exactly the allowed users when it is new |
| `BucketPolicies.MinIO.UnsetPolicies` | pkg/utils/minio.go:367-389 | the store changes as the visibility demands, with the partial effect of every error |
| `BucketPolicies.MinIO.GetCurrentResourceVisibility` | pkg/utils/minio.go:406-422 | the visibility derived from three policy memberships |
| `BucketPolicies.MinIO.UpdateServiceGroup` | pkg/utils/minio.go:424-469 | afterwards the group has exactly the given users |
| `BucketPolicies.MinIO.UpdateBucket` | pkg/handlers/buckets/update_bucket.go:90-123 | who may not change the bucket changes nothing; with the same visibility only the members of a restricted bucket are replaced; otherwise unset, then set |
| `BucketPolicies.InPolicyIsGranted` | pkg/utils/minio.go:510-532 | a policy lists a bucket if and only if it grants that bucket |
| `BucketPolicies.AddedHolds` | pkg/utils/minio.go:566-612 | adding a bucket extends what a policy grants by that bucket, without duplicates |
| `BucketPolicies.RemovedHolds` | pkg/utils/minio.go:676-717 | removing a bucket takes exactly that bucket away |
| `BucketPolicies.SetRepresents` | pkg/utils/minio.go:344-365 | setting an unregistered bucket registers it with owner, visibility and members and affects no other bucket |
| `BucketPolicies.UnsetRepresents` | pkg/utils/minio.go:367-389 | unsetting with the recorded owner and visibility drops exactly that bucket, or fails and leaves it an orphan if it is restricted and has no members |
| `BucketPolicies.UnsetSucceedsExactly` | pkg/utils/minio.go:367-389 | such an unset succeeds if and only if the bucket is not restricted or has a member |
| `BucketPolicies.OrphanLeft` | pkg/utils/minio.go:720-740 | after the failed unset every user reads restricted and nobody may change the bucket |
| `BucketPolicies.OrphanStays` | pkg/utils/minio.go:344-389 | no sequence of operations gets a bucket out of that state |
| `BucketPolicies.MemberlessUnsetFails` | pkg/utils/minio.go:344-389 | a restricted bucket set up without members is an instance |
| `BucketPolicies.ChangeRepresents` | pkg/handlers/buckets/update_bucket.go:90-123 | a change by any user acts on the registry as permitted, or not at all; a change of a restricted bucket without members leaves an orphan |
| `BucketPolicies.ChangeTakesEffect` | pkg/handlers/buckets/update_bucket.go:90-123 | a permitted change to another known visibility reads back as asked, unless it leaves an orphan |
| `BucketPolicies.CurrentIsView` | pkg/utils/minio.go:406-422 | what a user reads back is what the registry shows that user, for all users and buckets |
| `BucketPolicies.StepRepresents` | pkg/utils/minio.go:344-389 | every operation keeps store and registry in step |
| `BucketPolicies.RunsRepresent` | pkg/utils/minio.go:344-422 | after every sequence of sets, unsets and changes each registered bucket reads back the visibility last set, public where that was none of the three known texts, unset buckets the empty text, orphans of failed unsets restricted, and no policy holds a duplicate |
| `BucketPolicies.ReadBackExactly` | pkg/utils/minio.go:344-365 | a visibility reads back to the owner as it was given if and only if it is private, restricted or public |
| `BucketPolicies.UnknownIsPublic` | pkg/utils/minio.go:344-365 | every other text makes the bucket public to every user |
| `BucketPolicies.CapitalisedIsPublic` | pkg/utils/minio.go:344-365 | for instance Private with a capital letter |
| `BucketPolicies.OwnerKeptExactly` | pkg/handlers/buckets/update_bucket.go:90-123 | after a change by any user the recorded owner may still change the bucket if and only if the caller does not see it as public, is the owner, or makes it public again, and no orphan is left |
| `BucketPolicies.TakenOver` | pkg/handlers/buckets/update_bucket.go:90-123 | a public bucket that another user makes private is visible to that user and no longer to its recorded owner |
| `BucketPolicies.FreshStore` | pkg/utils/minio.go:121-171 | the empty store represents the empty registry |
| `Metrics.FilterRequestRecords` | pkg/metrics/scoped.go:108-119 | the records of the allowed services, in order |
| `Metrics.CountRequests` | pkg/metrics/aggregators.go:254-262 | the number of records of a type, or of all |
| `Metrics.UniqueUsers` | pkg/metrics/aggregators.go:264-273 | the number of distinct non-empty users |
| `Metrics.UniqueServices` | pkg/metrics/aggregators.go:275-286 | the number of distinct non-empty services over both record lists |
| `Metrics.Counted` | pkg/metrics/aggregators.go:330-342 | one more record turns the accumulator of a service's records into that of the longer list |
| `Metrics.IndexRecords` | pkg/metrics/aggregators.go:323-343 | after the first loop every service's accumulator is the one of its records alone |
| `Metrics.IndexAll` | pkg/metrics/aggregators.go:323-355 | the same after both loops, exposed records without a service skipped |
| `Metrics.MapToUserList` | pkg/metrics/aggregators.go:302-312 | the users in increasing order, whatever order the map is visited in |
| `Ordering.LessExactly` | pkg/metrics/aggregators.go:308-310 | increasing order is the order of Go strings: a common prefix, after which one ends or has the smaller character |
| `Metrics.MapToCountryList` | pkg/metrics/aggregators.go:288-300 | the countries in increasing order with their counts |
| `Metrics.MakeItem` | pkg/metrics/aggregators.go:359-373 | an item equals the one computed from its service's records alone |
| `Metrics.MakeItems` | pkg/metrics/aggregators.go:357-374 | the same for every visited key |
| `Metrics.BreakdownByService` | pkg/metrics/aggregators.go:314-379 | one item per service in increasing order; its counts by type, executions, exposed requests, distinct users and requests per known country are those of the records naming that service |
| `Metrics.ItemCounts` | pkg/metrics/aggregators.go:314-379 | an item's figures are the numbers of matching positions in the two record lists |
| `Metrics.ScopingCommutes` | pkg/metrics/scoped.go:108-119 | breaking down the filtered records is the full breakdown restricted to the allowed keys, item for item in the same order |
| `Metrics.GroupsPartition` | pkg/metrics/aggregators.go:314-379 | grouping by service loses and repeats no record, for every additive measure |
| `Metrics.ItemSumsAreTotals` | pkg/metrics/aggregators.go:219-252 | sync, async, execution and exposed sums of the items equal the totals over all records |
| `Metrics.ExposedTotalExactly` | pkg/metrics/aggregators.go:344-347 | the items' exposed requests never exceed the number of exposed records and equal it if and only if all of them name a service |
| `Metrics.RequestTotalExactly` | pkg/metrics/aggregators.go:219-262 | the items' request totals never exceed the number of records and equal it if and only if none is untyped |
| `Metrics.NamedItemsAreServices` | pkg/metrics/aggregators.go:275-286 | the items with a name are as many as the distinct services of the summary |
| `ExecutionLog.ParseExecutionLogs` | pkg/handlers/logs.go:443-497 | exactly the entries of the kept lines, in order |
| `ExecutionLog.LineLayout` | pkg/utils/auth/auth.go:105-106 | the printed line, column by column with its padding |
| `ExecutionLog.SixParts` | pkg/utils/auth/auth.go:105-106 | the printed line splits into six parts that trim back to the printed fields |
| `ExecutionLog.MetricsRoundTrip` | pkg/metrics/sources.go:620-662 | parsing the printed line returns user and time, and service and type of the path |
| `ExecutionLog.ServiceRoundTrip` | pkg/metrics/sources.go:664-672 | for /job/name and /run/name these are the name and its type |
| `ExecutionLog.LogsRoundTrip` | pkg/handlers/logs.go:450-494 | the logs handler keeps a printed line if and only if it is a POST to a job or run path, and returns every field |
| `ExecutionLog.ParsersAgree` | pkg/metrics/sources.go:620-672 | both parsers agree on path, user and time |
| `ExecutionLog.StampedMetrics` | pkg/metrics/sources.go:620-662 | text before the prefix does not change what the metrics parser returns |
| `ExecutionLog.StampedLogs` | pkg/handlers/logs.go:450-494 | with a timestamp in front the logs parser keeps the same lines and returns the same fields, but takes timestamp, prefix and time together for the time |
| `ExecutionLog.StampedAgreement` | pkg/handlers/logs.go:343-494 | on such lines both parsers agree on path and user, and on the time exactly when that whole text parses to it |
| `ExecutionLog.LogRoundTrip` | pkg/handlers/logs.go:443-497 | parsing a whole printed log returns its executions in order |
| `VolumeQuota.Namespace.GetVolumeUsage` | pkg/utils/volume_limit.go:191-210 | count and storage of managed and of other claims |
| `VolumeQuota.Namespace.EnsureVolumeLimits` | pkg/utils/volume_limit.go:42-62 | existing objects are unchanged; a missing quota gets the configured disk and count, missing bounds the configured maximum and minimum |
| `VolumeQuota.Namespace.GetVolumeQuotaInfo` | pkg/utils/volume_limit.go:99-133 | keeps existing limits and shows raw limits less what OSCAR does not manage, clamped at zero, the managed usage and the bounds |
| `VolumeQuota.Namespace.ValidateManagedVolumeQuota` | pkg/utils/volume_limit.go:135-176 | accepts a positive size if and only if it fits the raw quota beside all existing claims |
| `VolumeQuota.Namespace.CreateVolume` | pkg/handlers/volumes.go:85-113 | creates exactly one claim of the given size if and only if the size is positive, fits the raw quota beside all claims, and the name is free |
| `VolumeQuota.Namespace.DeleteVolume` | pkg/backends/resources/volume.go:120-135 | removes exactly the claims of that name unless a service is attached |
| `VolumeQuota.Namespace.MergeLimits` | pkg/handlers/quotas.go:338-359 | merged limits carry the named fields, disk and count plus overhead, and the current value of the others |
| `VolumeQuota.Namespace.UpdateVolumeQuota` | pkg/handlers/quotas.go:317-375 | succeeds if and only if every merged field is a quantity, and otherwise writes nothing |
| `VolumeQuota.Namespace.StoreMerged` | pkg/handlers/quotas.go:329-374 | the update from the current limits on: stored if and only if every merged field is a quantity |
| `VolumeQuota.Namespace.UpdateAndRead` | pkg/handlers/quotas.go:121-154 | the update handler: the read after the update shows exactly a non-negative value set and unnamed fields as before; a refused update changes no existing limit |
| `VolumeQuota.UsageSplits` | pkg/utils/volume_limit.go:191-210 | managed and other usage add up to the whole namespace |
| `VolumeQuota.UsageByKind` | pkg/utils/volume_limit.go:191-210 | claims of one kind count for that kind alone |
| `VolumeQuota.ValueRoundsUp` | pkg/utils/volume_limit.go:168-168 | the value of a quantity is the least whole number not below it |
| `VolumeQuota.CheckIsExact` | pkg/utils/volume_limit.go:135-176 | for positive sizes the visible check accepts if and only if storage and count fit the raw quota |
| `VolumeQuota.CheckAgreesExactly` | pkg/utils/volume_limit.go:152-174 | for all sizes, exactly when the visible and the raw check agree |
| `VolumeQuota.ZeroSizeSlipsThrough` | pkg/utils/volume_limit.go:152-159 | a size of zero passes the visible check in a namespace over its quota |
| `VolumeQuota.StepStaysWithinQuota` | pkg/handlers/volumes.go:95-113 | every creation or deletion stays within the raw quota |
| `VolumeQuota.RunsStayWithinQuota` | pkg/handlers/volumes.go:95-113 | so does every sequence of them |
| `VolumeQuota.ReadAfterUpdate` | pkg/handlers/quotas.go:317-375 | after an update the next read shows exactly the non-negative value set, and unnamed fields as before |
| `Yunikorn.Search` | pkg/utils/yunikorn.go:158-174 | the position of the first queue of a name |
| `Yunikorn.Scheduler.GetOscarQueue` | pkg/utils/yunikorn.go:155-179 | points at the OSCAR queue under the root, creating it at the end; without a root nothing changes |
| `Yunikorn.Scheduler.Edited` | pkg/utils/yunikorn.go:97-142 | the children after adding, updating or deleting one service |
| `Yunikorn.Scheduler.Rewrite` | pkg/utils/yunikorn.go:74-150 | a change through the pointer is the change of the children and of nothing else |
| `Yunikorn.Scheduler.AddYunikornQueue` | pkg/utils/yunikorn.go:74-117 | maps the service to the memory and vcore that are set and changes no other entry, queue or partition |
| `Yunikorn.Scheduler.DeleteYunikornQueue` | pkg/utils/yunikorn.go:120-150 | removes the service from the map and changes no other entry, queue or partition |
| `Yunikorn.RootLens` | pkg/utils/yunikorn.go:155-167 | the root found again after a write is the root written; a second write replaces the first |
| `Yunikorn.ChildrenLens` | pkg/utils/yunikorn.go:155-179 | the children are one slot of the configuration: get-put, put-get and put-put |
| `Yunikorn.PutNames` | pkg/utils/yunikorn.go:97-113 | adding keeps child names unique |
| `Yunikorn.PutRefines` | pkg/utils/yunikorn.go:97-113 | adding is a map update |
| `Yunikorn.RemoveNames` | pkg/utils/yunikorn.go:130-142 | deleting keeps child names unique |
| `Yunikorn.RemoveRefines` | pkg/utils/yunikorn.go:130-142 | deleting is a map removal |
| `Yunikorn.DeleteUndoesAdd` | pkg/utils/yunikorn.go:74-150 | deleting a freshly added queue restores the children |
| `Yunikorn.AddTakesEffectExactly` | pkg/utils/yunikorn.go:74-179 | an added queue is in the configuration if and only if some default partition holds a root queue |
| `Yunikorn.QueueRefinesMap` | pkg/utils/yunikorn.go:74-179 | over every run the OSCAR queue is a map from service to resources, names stay unique and no other partition, queue or setting changes |
| `NodeCapacity.IsNodeReady` | pkg/resourcemanager/k8s.go:115-122 | some condition of type Ready is true |
| `NodeCapacity.SumContainers` | pkg/resourcemanager/k8s.go:105-108 | the sum of a pod's container requests |
| `NodeCapacity.SumLaws` | pkg/resourcemanager/k8s.go:105-108 | requests of one container are its CPU and memory, and they add up over lists |
| `NodeCapacity.GetNodeAvailableResources` | pkg/resourcemanager/k8s.go:97-113 | allocatable less the container requests of the node's pods |
| `NodeCapacity.KubeResourceManager.constructor` | pkg/resourcemanager/k8s.go:37-41 | an empty table |
| `NodeCapacity.KubeResourceManager.UpdateResources` | pkg/resourcemanager/k8s.go:44-76 | the table holds the free amounts of the ready, schedulable workers |
| `NodeCapacity.KubeResourceManager.IsSchedulable` | pkg/resourcemanager/k8s.go:79-95 | true if and only if some row strictly exceeds the limits in both resources |
| `NodeCapacity.TableAdmitsExactly` | pkg/resourcemanager/k8s.go:44-113 | that is the case if and only if some worker that is schedulable and has a true Ready condition has allocatable strictly above its active pods' requests plus the limits |
| `NodeCapacity.SelectEligibleNodes` | pkg/utils/node_select.go:18-30 | the workers, or all nodes when there is none |
| `NodeCapacity.ScanInits` | pkg/handlers/status.go:189-207 | the sum of sidecars and the largest classic init container |
| `NodeCapacity.SidecarLaws` | pkg/handlers/status.go:189-198 | sidecar requests add up, classic init containers do not count |
| `NodeCapacity.HeaviestExactly` | pkg/handlers/status.go:198-206 | the largest classic init request: an upper bound that is zero or attained |
| `NodeCapacity.NodeRequests` | pkg/handlers/status.go:163-228 | the requests of a node's active pods as the scheduler reserves them |
| `NodeCapacity.RequestLaws` | pkg/handlers/status.go:167-228 | both figures add up pod by pod; pods of other nodes and finished ones request nothing |
| `NodeCapacity.StatusIsConservative` | pkg/handlers/status.go:326-331 | the status handler never reports more room than the resource manager, and the same room if and only if no pod reserves beyond its application containers |
| `NodeCapacity.AgreeWithoutInits` | pkg/handlers/status.go:163-228 | in particular without init containers |
| `MergeReduce.WordCount` | examples/compss/python/wordcount_merge.py:42-53 | every word of the text with its number of occurrences |
| `MergeReduce.MergeTwoDicts` | examples/compss/python/wordcount_merge.py:57-68 | the first dictionary is changed in place to the word by word sum and returned, whatever order the keys are visited in, also when both are the same object |
| `MergeReduce.MergeQueue` | examples/compss/python/wordcount_merge.py:71-88 | terminates and returns what the queue of all inputs reduces to, nothing for an empty list |
| `MergeReduce.QueueRound` | examples/compss/python/wordcount_merge.py:81-86 | one round keeps what the queued positions reduce to |
| `MergeReduce.MergeDicts` | examples/compss/python/wordcount_merge.py:112-112 | on distinct dictionary objects changed in place the result holds what their original contents reduce to |
| `MergeReduce.RotateShifts` | examples/compss/python/wordcount_merge.py:79-88 | the queue concatenates a rotation of its inputs |
| `MergeReduce.PowerKeepsOrder` | examples/compss/python/wordcount_merge.py:79-88 | a queue of a power of two inputs keeps their order |
| `MergeReduce.PowerReducesInOrder` | examples/compss/python/wordcount_merge.py:71-88 | on a power of two inputs every associative function of any type gives the left-to-right result |
| `MergeReduce.RotationShows` | examples/compss/python/wordcount_merge.py:71-88 | on every other number of inputs concatenation gives another result |
| `MergeReduce.ReduceIsRotatedFold` | examples/compss/python/wordcount_merge.py:71-88 | for an associative function the result is the left-to-right combination of that rotation |
| `MergeReduce.OrderKeptExactly` | examples/compss/python/wordcount_merge.py:72-77 | every associative function on all data of n inputs gives the documented left-to-right result if and only if n is a power of two |
| `MergeReduce.ThreeInputsRotate` | examples/compss/python/wordcount_merge.py:72-77 | with three inputs the third comes first |
| `MergeReduce.ReduceIsFold` | examples/compss/python/wordcount_merge.py:71-88 | a commutative and associative function gives the left-to-right result |
| `MergeReduce.ReducedCounts` | examples/compss/python/wordcount_merge.py:111-112 | whatever the pairing, the reduced dictionary counts every word over all texts |
| `MergeReduce.CountFiles` | examples/compss/python/wordcount_merge.py:105-112 | the program returns, per word, the total over all files |
| `MergeReduce.SumValues` | examples/compss/python/wordcount_merge.py:124-124 | the values sum to the number of words read |

## Left out

- Building the TOPSIS matrix from job statuses and cluster status (`countJobs`, `createParameters`): the matrix is an input.
- Floating-point rounding, infinities, and conversions of reals outside the integer range; the integer NaN converts to is a parameter.
- HTTP, TLS, JSON, YAML, Loki, Prometheus, S3 and Kubernetes client calls, and their transport errors on the status request.
- Tokens inside the delegation loop: which token a request carries is not tied to the cache model.
- Jobs offloaded through InterLink, whose event is encoded; job labels, annotations and Kueue admission.
- A rescheduler round in which reading a service fails.
- Breakdowns by user and by country, usage hours, classification of users and completeness notes of the metrics.
- Exposed-service log lines and Loki queries; the record filter by time range.
- Kueue quotas for CPU and memory; forced deletion of volumes and volumes created with a service.
- MinIO's own rules for groups and policies, bucket creation and deletion, tags, and the group branches for services.
- Cluster-wide totals, maxima and usage figures of the status handler.
- Case folding beyond ASCII letters and the Kelvin sign.
- Object creation handlers, OIDC, secrets, image pulling and configuration: mostly calls into libraries.
- NodeCapacity.KubeResourceManager.UpdateResources: the mutex around the table is not modelled; an update is one step.
- The effect of a group update on the MinIO server is taken as its definition, not derived from MinIO's code.
