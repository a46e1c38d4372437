# Polaris caches, verified

Polaris keeps its data in a store and answers clients from caches that are updated
incrementally. This project models the places where a cheap incremental structure has to agree
with the obvious definition over the whole data set, and proves that it does, after every run of
updates. Where it does not, there is a lemma that says exactly when.

Each component comes in two parts. A module of values holds the state, the steps and the
theorems over whole runs. A class holds the fields that the Go code changes in place; its methods
are the Go loops, and each is proved to be the corresponding step.

| component | values and theorems | the mutable form |
|---|---|---|
| circuit-breaker index | `CircuitBreakerSpec` | `CircuitBreaker` |
| fetch window | `FetchWindow` | `FetchWindow.NamespaceCache` |
| service counts and pending services | `ServiceCounts` | `ServiceCache` |
| instance cache | `InstanceCache` | `InstanceCache.Cache` |
| strategy links and access decisions | `StrategySpec` | `StrategyCache` |
| user groups | `UserGroups` | `UserGroups.UserCache` |
| routing rules | `RoutingRules` | `RoutingBucket` |
| rate-limit rules | `RateLimitRules` | `RateLimitBucket` |
| long polling | `LongPoll` | `LongPollServer` |
| from release to response | `LongPollWatch`, `LongPollDelivery`, `LongPollRuns` | (steps only) |
| release scanner and file cache | `Scanner`, `ReleaseCache` | `ScannerService` |
| service paging | `ServicePaging` | `ServicePaging` (in place on an array) |
| IP text codec | `IpCodec` | `IpCodec` (loops) |
| configuration file tags | `ConfigTags` | `ConfigTags.TagStore` |
| CL5 sections | `L5Sections` | `L5Sections.L5Cache` |

`Sorting`, `Folds`, `Revisions`, `Keys` and `Wrappers` are shared.

## What is false, and exactly when

- A circuit-breaker rule whose destination is edited goes on being served at the old place
  (`CircuitBreakerSpec.MovedRuleStaysBehind`). Lookups are exact along a run if and only if every
  delivery covers the live destination of its id (`CircuitBreakerSpec.AlwaysExactIffCovering`).
- A failed fetch still moves the window. No row is ever missed if and only if commit lag plus
  failure gap fits in the look-back, with one second less where the query is strict
  (`FetchWindow.WindowIsTight`).
- The comment in the scanner says that looking ten seconds back loses no message. That holds if
  and only if releases become visible within ten seconds, or in less than ten seconds where the
  query is strict: MySQL's is (store/mysql/config_file_release.go:138), BoltDB's is not
  (store/boltdb/config_file_release.go:293). See `Scanner.ScanWindowIsTight`.
- A load reads the table first and stores its entry later, and a reload that finds a load under
  way takes its entry. So an old version can stay cached after the new one was handled
  (`ReleaseCache.RacedReload`), and a deletion handled without any delay can be undone
  (`ReleaseCache.RacedDeletion`). Between scans a live file is cached at the table's version if and
  only if no load was passed both by the commit and by its handling
  (`ReleaseCache.CacheFollowsReleases`). By the end of the next scan such an entry is gone, unless
  the file is committed again, if and only if the row is still in the window of the scan or the
  entry expires (`ReleaseCache.NextScanHealsIff`).
- Without races, too, a deleted file can stay in the cache with its old content. In the runs
  without races every deletion takes effect if and only if releases are first handled within five
  seconds of their modification time (`ReleaseCache.DeletionWindowIsTight`).
- A client can be left waiting, until its connection times out, with a version below that of a
  release that was fetched and handled. There are exactly these reasons
  (`LongPollDelivery.WaitsInVainIff`, `LongPollDelivery.SilentVerdict`), each with a run:
  - the release was more than five seconds old when it was to be announced
    (`LongPollRuns.TooLateWaits`);
  - the cache had it already when the scanner got to it (`LongPollRuns.LoadedWaits`);
  - the announcement was taken from the queue after the client was compared and before it was
    registered (`LongPollRuns.PassedWaits`);
  - the client was compared with an entry of a load that raced (`LongPollRuns.MisledWaits`);
  - it was among the first ever to watch the file and lost the double check
    (`LongPollRuns.LostWaits`, `LongPollWatch.OnlyTheFirstLose`).
- Without the last four reasons everybody is told, in every run, if and only if releases are
  announced within five seconds of their modification time
  (`LongPollRuns.AnnouncementWindowIsTight`). A scan looks ten seconds back, so a release can be
  fetched in time and still not be announced.
- An instance that changes its service is listed and counted under both
  (`InstanceCache.MovedInstanceCountsTwice`). Grouping and counts are right along a run if and
  only if every instance is delivered under the service it is cached under
  (`InstanceCache.AlwaysValidIff`).
- A user group that is deleted and comes back smaller keeps its former members in the reverse
  index (`UserGroups.FormerMemberStaysLinked`). The indexes agree along a run if and only if every
  returning group claims everyone left linked to it (`UserGroups.AlwaysExactIff`).
- A user is still allowed what a strategy grants to a group that was deleted
  (`StrategyCache.DeadGroupStillGrants`). Where the group indexes agree, the decision differs from
  the one by real membership exactly by such grants (`StrategyCache.DecisionByMembers`).
- A routing rule saved again with other scopes is still listed under the old ones
  (`RoutingRules.EditedRuleStaysListed`). No rule is ever missed (`RoutingRules.NoScopeMissed`).
  Among separable namespaces, those that neither end in "@" nor contain "@@", every listing is right
  along a run if and only if every save of an enabled rule claims the places left over from earlier
  versions, in either direction (`RoutingRules.AlwaysListsRightIff`). Among others a rule is also
  listed for services that share a key with its own (`RoutingRules.SharedKeyListed`).
- A rate-limit rule that moves leaves the old service's revision as it was
  (`RateLimitRules.MovedRuleLeavesRevision`). With a collision-free hash, revisions fit along a run
  if and only if every service that a batch does not name loses all of its rules to it or none
  (`RateLimitRules.AlwaysFitIffAllOrNone`).
- A page whose offset plus limit passes 32 bits panics (`ServicePaging.PanicsIff`), so a client's
  pages tile the result if and only if the last one does not (`ServicePaging.QueriesTileIff`). The
  server clamps the limit to 100 (common/utils/common.go:289-291), so that takes more than
  2^32 - 100 services.
- The first write of a tag list with a repeated pair fails where the store has a unique key
  (MySQL) and writes the pair twice where it has none (BoltDB); the same list does neither once
  the file has tags (`ConfigTags.CreateConfigFileTags`).
- A namespace shares a service key with a shorter one if and only if it ends in "@" or contains
  "@@" (`Keys.ServiceKeyAmbiguousIff`).

## Model

| member | source | states |
|---|---|---|
| CircuitBreakerSpec.InvIsExact | cache/circuitbreaker_config.go:125-154 | if every existing bucket is exact and every narrow rule has its bucket, the fall-through lookup gives the live matching rules for every service, bucket or no bucket |
| CircuitBreakerSpec.CoversIsInclusion | cache/circuitbreaker_config.go:323-339 | `Covers` holds exactly when the new destination matches every service the old one matched |
| CircuitBreakerSpec.SeedIsExact | cache/circuitbreaker_config.go:296-310 | a service bucket created late and seeded from the wider tiers holds exactly the rules it would have had all along |
| CircuitBreakerSpec.Untouched | cache/circuitbreaker_config.go:183-314 | a delivery changes no lookup outside its destination |
| CircuitBreakerSpec.DeliverKeepsInv | cache/circuitbreaker_config.go:342-359 | storing or deleting a covering rule keeps all three tiers exact, across lazy creation and the reloads of narrower buckets |
| CircuitBreakerSpec.DeliverExactIff | cache/circuitbreaker_config.go:316-319 | with the clean-up empty, one delivery keeps all lookups exact if and only if it covers the live destination of its id |
| CircuitBreakerSpec.AlwaysExactIffCovering | cache/circuitbreaker_config.go:342-359 | along any run of deliveries and clears, lookups are exact at every moment if and only if every delivery covers |
| CircuitBreakerSpec.FixedDestinationsExact | cache/circuitbreaker_config.go:125-154 | if ids keep their destinations, every lookup after any run is exactly the live rules for all services, for (ns, *) and for (ns, name) |
| CircuitBreakerSpec.MovedRuleStaysBehind | cache/circuitbreaker_config.go:316-319 | a concrete run in which the old service is still served the rule that moved away |
| CircuitBreakerSpec.BatchAt | cache/circuitbreaker_config.go:349-359 | in a batch with distinct ids each id ends as its own record says |
| CircuitBreakerSpec.OrderIrrelevant | cache/circuitbreaker_config.go:349-359 | two orders of the same records leave the same live rules |
| CircuitBreakerSpec.RedeliveryIrrelevant | cache/circuitbreaker_config.go:342-359 | delivering a record that is in effect already changes no lookup |
| CircuitBreaker.ReloadRevision | cache/circuitbreaker_config.go:156-175 | the Revision is "" for an empty bucket and else the digest of the sorted multiset of its rules' revisions |
| CircuitBreaker.StoreAndReload | cache/circuitbreaker_config.go:229-233 | adds the rule and leaves the Revision right |
| CircuitBreaker.DeleteAndReload | cache/circuitbreaker_config.go:177-181 | removes the rule and leaves the Revision right |
| CircuitBreaker.StoreNamespaceBucket | cache/circuitbreaker_config.go:264-275 | finds or creates and seeds one namespace bucket, stores the rule, touches no other |
| CircuitBreaker.StoreServiceBucket | cache/circuitbreaker_config.go:287-312 | finds or creates and seeds one service bucket in the nested map, stores the rule, touches no other |
| CircuitBreaker.CircuitBreakerCache.constructor | cache/circuitbreaker_config.go:71-82 | starts with empty tiers and right Revisions |
| CircuitBreaker.CircuitBreakerCache.Clear | cache/circuitbreaker_config.go:109-117 | empties all tiers, Revisions right |
| CircuitBreaker.CircuitBreakerCache.CheckServiceSpecific | cache/circuitbreaker_config.go:139-148 | answers exactly when the service has a bucket, with its rules and a right Revision |
| CircuitBreaker.CircuitBreakerCache.CheckNamespaceSpecific | cache/circuitbreaker_config.go:150-154 | answers exactly when the namespace has a bucket |
| CircuitBreaker.CircuitBreakerCache.GetCircuitBreakerConfig | cache/circuitbreaker_config.go:125-137 | returns the rules of the three-tier lookup with a Revision that fits them |
| CircuitBreaker.CircuitBreakerCache.StoreToServiceCache | cache/circuitbreaker_config.go:242-314 | the nested loops are exactly the index step that the run theorems are about, Revisions kept right in every bucket |
| CircuitBreaker.CircuitBreakerCache.DeleteFromServiceCache | cache/circuitbreaker_config.go:183-227 | likewise for deletion, which creates no bucket |
| CircuitBreaker.CircuitBreakerCache.SetCircuitBreaker | cache/circuitbreaker_config.go:342-364 | a batch is its records applied in order, and the returned time is the latest one |
| CircuitBreaker.BatchKeepsInv | cache/circuitbreaker_config.go:342-359 | a covering batch keeps every tier exact |
| CircuitBreaker.ObservablyOrderFree | cache/circuitbreaker_config.go:342-364 | rules and Revision that a client sees do not depend on the order in which the store returned the rows |
| Revisions.DigestOfAny | cache/cache.go:565-581 | sorting any listing of the revisions gives the digest of their multiset |
| Revisions.ComputeRevisionBySlice | cache/cache.go:575-582 | feeding piece by piece hashes the concatenation, after what was written before |
| Revisions.ComputeRevision | cache/cache.go:559-573 | depends on the service revision and the multiset of instance revisions only |
| Revisions.CompositeComputeRevision | cache/cache.go:585-597 | depends on the multiset of revisions only, and leaves the caller's slice sorted |
| FetchWindow.FetchReflectsAll | cache/namespace.go:96-127 | in a state that keeps the invariant, a fetch makes the cache equal to the visible valid rows |
| FetchWindow.StepKeepsInv | cache/cache.go:204-238 | every clock tick, commit, clock read, fetch (failed or not), deferred assignment and clear keeps "whatever is unseen lies inside the next window" |
| FetchWindow.NoLostUpdate | cache/cache.go:189-238 | along every legal run, after every successful fetch the cache equals the store's visible valid rows |
| FetchWindow.LostUpdate | cache/cache.go:210-218 | whenever lag plus gap does not fit, some run loses a row for good, because the failed executor moved the window: no run from there that neither clears the cache nor commits the row again brings it in |
| FetchWindow.StepKeepsLost | cache/cache.go:204-238 | a row outside the cache and outside every later window stays so, unless the cache is cleared or the row is committed again |
| FetchWindow.WindowIsTight | cache/cache.go:189-238 | no run loses a row if and only if commit lag plus failure gap (plus one for a strict query) is at most the look-back |
| FetchWindow.ApplyRowsIsMerge | cache/namespace.go:113-122 | applying fetched rows one by one, in any order, is replacing what was fetched and dropping what was deleted |
| FetchWindow.NamespaceCache.Reset | cache/namespace.go:132-136 | empties the cache and starts the window again |
| FetchWindow.NamespaceCache.SetNamespaces | cache/namespace.go:109-127 | applies the rows in order and returns the latest modify time |
| FetchWindow.UpdateSteps | cache/cache.go:204-238 | what an update leaves, for every combination of failures and whatever ticks and commits fall between its steps |
| FetchWindow.NamespaceCache.DoCacheUpdate | cache/cache.go:204-238 | is the steps clock, fetch, assignment of the machine, for every combination of failures and with the clock and the store at work in between |
| ServiceCounts.PromiseHolds | cache/service.go:459-478 | under the invariant a namespace is counted right, or a service of it is pending or about to be notified, or it is in the set being recounted |
| ServiceCounts.QuietStepKeepsInv | cache/instance.go:301-302 | count writes and notifications of the instance updater keep the invariant |
| ServiceCounts.ApplyServiceKeepsInv | cache/service.go:389-435 | adding or removing a service, which forgets its pending entry, keeps it |
| ServiceCounts.TakeKeepsInv | cache/service.go:479-497 | taking the known pending services, and leaving the unknown ones, keeps it |
| ServiceCounts.CountOneKeepsInv | cache/service.go:541-548 | adding one service to a running recount keeps it although instance counts change meanwhile |
| ServiceCounts.StepKeepsInv | cache/service.go:372-550 | every step of either updater keeps the invariant |
| ServiceCounts.PendingProtocol | cache/service.go:451-497 | at every moment of every interleaving, every namespace keeps the promise |
| ServiceCounts.QuiescentIsExact | cache/service.go:517-550 | once nothing is pending, written or under way, the counts of every namespace are exact |
| ServiceCache.Cache.NotifyServiceCountReload | cache/service.go:451-457 | adds exactly the given ids to the pending ones |
| ServiceCache.Cache.ApplyService | cache/service.go:404-430 | one record is exactly the machine's save or remove step |
| ServiceCache.Cache.AppendServiceCountChangeNamespace | cache/service.go:479-497 | takes exactly the pending services that are known and adds their namespaces |
| ServiceCache.CountSpace | cache/service.go:541-548 | adding up service by service, in any order, gives the tally of the namespace |
| ServiceCache.Cache.PostProcessUpdatedServices | cache/service.go:517-550 | exactly the affected namespaces are recounted, or dropped when they have no services map |
| ServiceCache.Cache.SetServices | cache/service.go:372-449 | a batch applies its records, takes the pending ones and settles every namespace touched; an empty batch does nothing at all |
| ServiceCache.RecountedIsExact | cache/service.go:517-550 | a settled namespace is exact in the sense of the machine |
| InstanceCache.RunningTotal | cache/instance.go:245-277 | the running total follows the number of cached instances for every delivery |
| InstanceCache.GroupingKeptIff | cache/instance.go:244-290 | a delivery keeps the grouping by service if and only if the instance stays with its service |
| InstanceCache.BatchCountsExact | cache/instance.go:324-356 | after any batch at all, a count entry exists exactly for the services with listed instances, and is exact |
| InstanceCache.BatchKeepsValid | cache/instance.go:219-306 | a batch in which instances keep their service keeps grouping, total and counts |
| InstanceCache.BatchValidIff | cache/instance.go:219-306 | a batch keeps grouping, total and counts if and only if its instances stay with their services; later items of the batch do not repair a move |
| InstanceCache.RunIsValid | cache/instance.go:192-306 | and so does any run of batches and clears |
| InstanceCache.AlwaysValidIff | cache/instance.go:192-306 | along any run of batches and clears everything is right after every event if and only if every instance is delivered under the service it is cached under |
| InstanceCache.MovedInstanceCountsTwice | cache/instance.go:244-290 | a concrete run: one instance, listed and counted under two services |
| InstanceCache.Conservation | cache/instance.go:219-360 | running total = cached instances = sum of the group sizes = sum of the per-service totals; totals are positive and healthy plus isolated is at most total |
| InstanceCache.CountInstances | cache/instance.go:338-349 | total, healthy and isolated counts of one service, in any order |
| InstanceCache.Cache.SetInstance | cache/instance.go:244-290 | the loop body is the delivery step |
| InstanceCache.Cache.PostProcessUpdatedServices | cache/instance.go:324-356 | recounts exactly the affected services, dropping entries of empty ones |
| InstanceCache.Cache.SetInstances | cache/instance.go:219-306 | is the batch step that the theorems are about, for every batch |
| InstanceCache.Cache.Clear | cache/instance.go:192-200 | empties everything, total included |
| Keys.TaggedKeyInjective | cache/strategy.go:251-257 | the `%d_%s` keys are equal exactly for equal type and id, for all integers and all ids |
| Keys.ServiceKeyInjective | cache/routing_config_bucket.go:364-366 | the `%s@@%s` keys are unambiguous among namespaces that neither end in "@" nor contain "@@" |
| Keys.ServiceKeyAmbiguousIff | cache/routing_config_bucket.go:364-366 | any other namespace, and no such one, shares a key with a shorter namespace, and then for each of its services |
| StrategySpec.LinkEffect | cache/strategy_bucket.go:90-102 | saving a link adds exactly that link |
| StrategySpec.UnlinkEffect | cache/strategy_bucket.go:111-125 | deleting a link removes exactly that link |
| StrategySpec.NoEmptyKept | cache/strategy_bucket.go:111-125 | neither leaves an empty entry behind |
| StrategySpec.DroppedExactly | cache/strategy.go:246-260 | comparing keys finds exactly the items that the new rule no longer lists |
| StrategySpec.RelinkCorrect | cache/strategy.go:242-277 | a changed, new or deleted rule ends up linked exactly to what it lists now, or to nothing |
| StrategySpec.RelinkFrame | cache/strategy.go:242-277 | no other rule's link and no other endpoint is touched |
| StrategySpec.RelinkAt | cache/strategy.go:167-194 | the same inside a batch, although every rule is compared with the cache as it was before the batch |
| StrategySpec.SetBatchKeepsInverse | cache/strategy.go:167-321 | a batch keeps all five buckets the exact inverse of the cached lists, without empty entries |
| StrategySpec.RunIsInverse | cache/strategy.go:167-321 | and so does any run of batches |
| StrategySpec.IndexedIsNaive | cache/strategy.go:352-428 | the access decision through the indexes is the naive rule over all cached strategies, for every principal, resource type and id |
| StrategySpec.DecisionSplits | cache/strategy.go:381-428 | more groups allow exactly what the fewer allow or what is granted to the others |
| StrategyCache.BuildEnhanced | cache/strategy.go:196-214 | splits the principals by role, losing none |
| StrategyCache.HandleLinks | cache/strategy.go:218-321 | the loops of both handlers are the relinking step |
| StrategyCache.Cache.SetStrategys | cache/strategy.go:167-194 | links first, then the rules; keeps the buckets inverse |
| StrategyCache.Cache.CheckResourceEditable | cache/strategy.go:352-377 | true exactly when some listed strategy names the principal, or nothing is listed and nothing must be |
| StrategyCache.Cache.IsResourceEditable | cache/strategy.go:381-428 | true exactly when the naive rule allows it with the groups the user cache links to the user; where the group indexes agree, exactly when it allows it with the groups the user is in, or a strategy grants it to a deleted group left linked |
| StrategyCache.Cache.GetStrategyDetails | cache/strategy.go:438-468 | exactly the cached strategies that name the user, or else the group |
| StrategyCache.Cache.Clear | cache/strategy.go:339-344 | empties the rules and all five buckets |
| StrategyCache.DecisionByMembers | cache/strategy.go:402-409 | with agreeing indexes, deciding by linked groups is deciding by membership, or by a grant to a deleted group |
| StrategyCache.DeadGroupStillGrants | cache/strategy.go:402-409 | a concrete run: a user whose only group was deleted is still allowed what is granted to it |
| UserGroups.DeliverEffect | cache/user.go:261-315 | who is linked to what after one delivery, for every user and group |
| UserGroups.AlwaysComplete | cache/user.go:261-315 | after any run a member of a live group has the group in the reverse index |
| UserGroups.DeliverExactIff | cache/user.go:272-310 | a delivery keeps the reverse index exact for live groups if and only if a returning group claims everybody still linked to it |
| UserGroups.NeverReturningExact | cache/user.go:261-315 | if no deleted group returns, the two indexes agree exactly after any run |
| UserGroups.AlwaysExactIff | cache/user.go:261-315 | along any run the indexes agree on live groups at every moment if and only if every returning group claims everybody left linked to it |
| UserGroups.FormerMemberStaysLinked | cache/user.go:272-274 | a concrete run: a member left out when the group returns is still linked to it |
| UserGroups.UserCache.HandlerGroupCacheUpdate | cache/user.go:261-315 | the loops are the delivery steps in order |
| UserGroups.UserCache.IsUserInGroup | cache/user.go:350-357 | true exactly for members of a live group; for those it agrees with the reverse index whenever that is exact |
| UserGroups.UserCache.GetUserLinkGroupIds | cache/user.go:397-406 | exactly the linked groups, each once; among live groups exactly those the user belongs to whenever the index is exact |
| RoutingRules.SaveEffect | cache/routing_config_bucket.go:149-196 | saving files the rule under its slots and changes nothing else |
| RoutingRules.DeleteEffect | cache/routing_config_bucket.go:218-256 | deleting clears exactly the slots of the sources, in both directions where they are wildcards |
| RoutingRules.SaveKeepsComplete | cache/routing_config_bucket.go:149-196 | every rule stays filed everywhere it says |
| RoutingRules.SaveSoundIff | cache/routing_config_bucket.go:149-196 | a save keeps the index from holding anything else if and only if the new version files every slot left over |
| RoutingRules.SaveListsIff | cache/routing_config_bucket.go:149-346 | after a save the rule is listed for every service of a separable namespace exactly at the most specific level that its sources and destinations give, if and only if it is disabled or claims every leftover slot in one direction or the other |
| RoutingRules.OthersListedAsBefore | cache/routing_config_bucket.go:149-346 | saving or deleting one rule changes no listing of another |
| RoutingRules.AlwaysListsRightIff | cache/routing_config_bucket.go:149-346 | along any run of saves and deletes of separable rules every listing is, at every moment, exactly what the scopes of the rules give, if and only if every save of an enabled rule claims its leftovers |
| RoutingRules.EditedRuleStaysListed | cache/routing_config_bucket.go:149-346 | a concrete run: a rule edited to another service is still listed for the old one |
| RoutingRules.SharedKeyListed | cache/routing_config_bucket.go:364-366 | a concrete run: a rule for ("a@", "b") is listed for ("a", "@b") |
| RoutingRules.DeleteKeepsSound | cache/routing_config_bucket.go:218-256 | a delete keeps it although it leaves destination entries behind |
| RoutingRules.NoRuleMissed | cache/routing_config_bucket.go:290-346 | an enabled rule whose slots concern the service is listed, at its level or a more specific one, whatever was edited before |
| RoutingRules.NoScopeMissed | cache/routing_config_bucket.go:149-346 | after any run and for every name, an enabled rule with (ns, svc), (ns, *) or (*, *) among its sources or destinations is listed, at that level or a more specific one |
| RoutingRules.ListingIsExact | cache/routing_config_bucket.go:290-346 | with a sound index, exactly the enabled rules that concern the service, each at its most specific level |
| RoutingRules.HitsIffScope | cache/routing_config_bucket.go:154-178 | being filed where a level looks is having the scope (ns, svc), (ns, *) or (*, *), for every query, "*" included, among separable namespaces |
| RoutingRules.RunListsExactly | cache/routing_config_bucket.go:149-346 | after any run in which ids keep their scopes, the level of every rule in a listing is the most specific one its sources and destinations give, and others are not listed |
| RoutingBucket.RouteRuleBucket.SaveV2 | cache/routing_config_bucket.go:149-196 | the loops are the save step |
| RoutingBucket.RouteRuleBucket.DeleteV2 | cache/routing_config_bucket.go:218-256 | the loops are the delete step, also for an unknown id |
| RoutingBucket.RouteRuleBucket.ListEnableRules | cache/routing_config_bucket.go:290-346 | each rule once across the three lists, at the first level where it is found |
| RateLimitRules.CleanOldKeeps | cache/ratelimit_bucket.go:84-100 | taking a rule away from the service it was bound to keeps the grouping of the others |
| RateLimitRules.SaveKeepsInv | cache/ratelimit_bucket.go:64-81 | saving, also under another service, keeps each id in exactly its own sub-bucket and no sub-bucket empty |
| RateLimitRules.DelKeepsInv | cache/ratelimit_bucket.go:102-119 | so does deleting, also when the delivered record names another service |
| RateLimitRules.RunKeepsInv | cache/ratelimit_bucket.go:64-119 | and any run |
| RateLimitRules.CountIsSize | cache/ratelimit_bucket.go:53-62 | the sizes of the sub-buckets add up to the number of rules |
| RateLimitRules.ServedExactly | cache/ratelimit_bucket.go:128-139 | a service is served exactly the cached rules bound to it, so not one that moved away, among separable namespaces |
| RateLimitRules.RevisionFitsIff | cache/ratelimit_config.go:146-174 | after a whole batch a service's revision fits its rules if and only if the batch names it, or it is gone, or the rules that left it do not show in the digest |
| RateLimitRules.AlwaysFitIff | cache/ratelimit_config.go:140-175 | along any run of batches all revisions fit after every batch if and only if every batch names the services from which it visibly takes rules |
| RateLimitRules.DigestShowsIff | cache/ratelimit_bucket.go:195-219 | with a collision-free hash and non-empty revisions, rules that leave a sub-bucket do not show in its digest if and only if there are none |
| RateLimitRules.AlwaysFitIffAllOrNone | cache/ratelimit_config.go:140-175 | with a collision-free hash and non-empty revisions, along any run of batches all revisions fit after every batch if and only if every service that a batch does not name loses all of its rules to it or none |
| RateLimitRules.MovedRuleLeavesRevision | cache/ratelimit_config.go:157-174 | a concrete run, for every collision-free hash: a service announces the revision of a rule that moved away |
| RateLimitBucket.Bucket.SaveRule | cache/ratelimit_bucket.go:64-81 | is the save step and keeps the invariant |
| RateLimitBucket.Bucket.DelRule | cache/ratelimit_bucket.go:102-119 | is the delete step and keeps the invariant |
| RateLimitBucket.Bucket.Count | cache/ratelimit_bucket.go:53-62 | returns the number of cached rules |
| RateLimitBucket.Bucket.GetRules | cache/ratelimit_bucket.go:128-139 | returns exactly the cached rules with the key of the service, each once, and the sub-bucket's revision |
| RateLimitBucket.Bucket.ReloadRevision | cache/ratelimit_bucket.go:141-219 | sets one sub-bucket's revision to the digest of its sorted revisions |
| RateLimitBucket.Bucket.SetRateLimit | cache/ratelimit_config.go:140-175 | is the batch step: its rules in order, then new revisions for exactly the services named in it |
| LongPoll.AddEffect | config/watcher.go:70-105 | registers the client on exactly the listed files, with the last version given for each |
| LongPoll.RemoveEffect | config/watcher.go:108-122 | unregisters it from exactly the listed files |
| LongPoll.OpenKeepsInv | config/connection_manager.go:68-91 | a new connection under a new client id keeps "registered on exactly the files of the live connection" and "waiting or answered once" |
| LongPoll.FinishKeepsInv | config/connection_manager.go:79-103 | so does answering, which does nothing when the connection is gone |
| LongPoll.StepKeepsInv | config/connection_manager.go:68-127 | and every step |
| LongPoll.LongPollSafety | config/connection_manager.go:68-127 | along every run a waiting client is registered on exactly its files and unanswered; a finished one is registered nowhere and has exactly one response, and a published version lies above the one it asked with |
| LongPollWatch.StepKeepsEntered | config/watcher.go:70-105 | registration file by file, with both looks for the list of watchers, in any interleaving, keeps "registered on exactly the files done with, except those lost" and "waiting or answered once" |
| LongPollWatch.RegisteredIff | config/connection_manager.go:68-127 | along every run a waiting client that is done registering is registered on a file it watches, with its version, if and only if it did not lose the double check; a finished one is registered nowhere and has exactly one response, and a published version lies above the one it asked with |
| LongPollWatch.OnlyTheFirstLose | config/watcher.go:79-94 | nobody who asks after a file once had a watcher loses its registration |
| LongPollDelivery.ComparedWith | config/client_config_file.go:175-177 | a comparison that finds nothing new for an outdated client meets a row yet to be handled or an entry that raced |
| LongPollDelivery.SentIffAnnounces | config/scanner.go:136-157 | the verdict of the machine on a release is that of the scanner's loop |
| LongPollDelivery.StepKeepsDelivered | config/scanner.go:120-161 | commits, scans, loads, comparisons, registrations, announcements, answers and time-outs, in any order, keep "an outdated client has its release yet to be handled, on its way, or one of the reasons to wait in vain" |
| LongPollDelivery.WaitsInVainIff | config/client_config_file.go:155-173 | along every run, once scans and announcements are settled, a client waits with a version below the row if and only if it was passed or misled, or asked with a lower version for a release never announced or a file it lost |
| LongPollDelivery.SilentVerdict | config/scanner.go:136-157 | a handled release that was never announced had expired when it was to be announced first, or was cached when it was handled first |
| LongPollDelivery.CalmIsTold | config/scanner.go:136-157 | in runs without the other reasons, announcing within five seconds tells everybody |
| LongPollRuns.TooLateWaits | config/scanner.go:149-156 | a run, for every delay above five seconds, in which a release is cached and not announced and a registered client waits on |
| LongPollRuns.AnnouncementWindowIsTight | config/scanner.go:149-156 | in all runs without the other reasons everybody is told if and only if releases are announced within five seconds |
| LongPollRuns.LoadedWaits | config/scanner.go:136 | a run in which another client loads the release first and it is not announced |
| LongPollRuns.PassedWaits | config/client_config_file.go:159-169 | a run in which the announcement is worked off between comparison and registration |
| LongPollRuns.LostWaits | config/watcher.go:79-94 | a run in which two clients look for watchers at once and one of them is never registered |
| LongPollRuns.MisledWaits | cache/config_file.go:229-238 | a run in which a client is compared with the older entry of a load that raced |
| LongPollServer.ConnManager.AddConn | config/connection_manager.go:68-91 | is the opening step |
| LongPollServer.ConnManager.Respond | config/connection_manager.go:79-103 | is the finishing step |
| LongPollServer.ConnManager.NotifyToWatchers | config/watcher.go:139-171 | exactly the clients waiting with a lower version are answered, and afterwards nobody waits on the file with a lower version |
| LongPollServer.ConnManager.SweepTimeouts | config/connection_manager.go:116-124 | exactly the overdue clients are answered, and afterwards nobody is overdue |
| Scanner.StepKeepsWindow | config/scanner.go:102-115 | every step keeps "whatever is unseen will be selected", through failed scans and scans in progress, for strict and inclusive queries |
| Scanner.NoMissedRelease | config/scanner.go:69-118 | along every run the next successful scan fetches every release committed since the one before |
| Scanner.MissedRelease | config/scanner.go:103-105 | a run that misses a release, for every lag above ten seconds, and at ten seconds for a strict query |
| Scanner.ScanWindowIsTight | config/scanner.go:31-35 | no run misses a release if and only if the lag is at most ten seconds, or below that for a strict query |
| ReleaseCache.StepKeepsFollowed | cache/config_file.go:217-290 | every step, of scans and of client loads that read first and store later, keeps each cached entry current or excused: by an unseen row, a row about to be handled, a deletion that had expired when it was first handled, or a race |
| ReleaseCache.CacheFollowsReleases | config/scanner.go:128-159 | between scans, for a fetched release: a live file is cached at the table's version if and only if no load raced its handling; a deleted one is cached as empty unless it was first handled too late or raced |
| ReleaseCache.HandlingHeals | config/scanner.go:136-157 | handling the row of a raced entry again takes the entry out, unless the row is an expired deletion |
| ReleaseCache.RacedRowRefetchedIff | config/scanner.go:102-115 | a scan fetches the row of a raced entry again if and only if it is still in the window |
| ReleaseCache.RacedHealsIff | cache/config_file.go:217-332 | a step heals a raced entry if and only if it commits the file, expires the entry, or handles the row while that is not an expired deletion |
| ReleaseCache.NextScanHealsIff | config/scanner.go:102-161 | by the end of the next scan a raced entry of a live file is gone if and only if its row was in the window of the scan or the entry has expired; one of a deleted file is gone if the deletion was in the window and has not expired, and stays if it had expired before |
| ReleaseCache.UnpassedIsUnraced | cache/config_file.go:229-289 | nothing is raced in a run in which no commit passes a load |
| ReleaseCache.RacedReload | cache/config_file.go:229-238 | a run in which the reload takes a waiting client's older entry and the old version stays cached |
| ReleaseCache.RacedDeletion | cache/config_file.go:229-289 | a run in which a client stores the live version after the deletion was handled without delay |
| ReleaseCache.LateDeletion | config/scanner.go:138-144 | a run without races that goes on serving a deleted file, for every handling delay above five seconds |
| ReleaseCache.DeletionWindowIsTight | config/scanner.go:138-144 | every deletion takes effect in every run without races if and only if releases are first handled within five seconds |
| ScannerService.HandledReleaseIff | config/scanner.go:128-159 | after the loop the cache has caught up with a live release, or leaves the file to be loaded, if and only if it was up to date or its reload found no entry of another load that is older; whatever loads fail and however the table and the clock move meanwhile |
| ScannerService.LoopIdempotent | config/scanner.go:103-105 | handling the same fetched rows again, now or later, leaves the cache unchanged |
| ScannerService.RedeliveryIsQuiet | config/scanner.go:136-157 | and announces no live release a second time that was loaded |
| ScannerService.ReleaseScanner.GetOrLoadIfAbsent | cache/config_file.go:217-290 | returns a cached entry, or after waiting for the lock the one stored meanwhile; else loads the file, caching an empty entry for one that does not exist and nothing when the load fails |
| ScannerService.ReleaseScanner.ReLoad | cache/config_file.go:322-332 | evicts, then takes the entry stored meanwhile by another load or loads; a failed load leaves the file uncached |
| ScannerService.ReleaseScanner.HandlerReleases | config/scanner.go:120-161 | the loop is the handling steps in order, each with its own clock readings, table, load and interfering client load; its events are those of the steps, and the scan time becomes the newest modify time seen |
| ServicePaging.LeqIsOrder | cache/service_query.go:201-211 | the comparator is a total order up to services with the same time and id |
| ServicePaging.SortBeforeTrim | cache/service_query.go:193-218 | sorts the slice in place unless the page is empty anyway, and cuts the page with 32-bit wrap-around |
| ServicePaging.PanicsIff | cache/service_query.go:213-217 | a request inside the list panics if and only if offset plus limit overflows |
| ServicePaging.PageIsDeterministic | cache/service_query.go:193-218 | any two orders of the same services, sorted by any correct sort, give the same page |
| ServicePaging.PagesTileIff | cache/service_query.go:213-217 | the pages put together are the sorted list, nothing repeated or skipped, if and only if the last one ends within 32 bits |
| ServicePaging.CollectServices | cache/service_query.go:295-329 | exactly the matching services that are no alias, once each, from all services or from those of one namespace |
| ServicePaging.CollectByName | cache/service_query.go:171-188 | exactly the matching services of the name that are no alias, once each, in one namespace or in all |
| ServicePaging.QueryIsDeterministic | cache/service_query.go:171-332 | what a query sorts its result into does not depend on the iteration order of any map |
| ServicePaging.QueriesTileIff | cache/service_query.go:171-332 | pages cut from answers that are each collected and sorted anew tile the one sorted list if and only if the last one ends within 32 bits |
| IpCodec.ParseIPStr2Int | service/l5_service.go:571-590 | succeeds exactly for four components that parse as 64-bit numbers, and assembles them |
| IpCodec.ParseIPStr2IntV2 | service/l5_service.go:593-609 | assembles the components of every string, so it equals the other parser wherever that succeeds, also when the accumulator wraps |
| IpCodec.ParseIPInt2Str | service/l5_service.go:612-619 | prints the four bytes, low byte first, joined by dots |
| IpCodec.JoinSplit | service/l5_service.go:572 | splitting at dots and joining gives the text back, and no part has a dot |
| IpCodec.RoundTrip | service/l5_service.go:571-619 | for every 32-bit address, parsing the printed text gives the address back, with either parser |
| IpCodec.TextRoundTrip | service/l5_service.go:571-619 | printing the parsed canonical text of four bytes gives the text back |
| ConfigTags.CollectTags | config/config_file_tag.go:70-82 | the nested map holds exactly the requested pairs |
| ConfigTags.CollectRows | config/config_file_tag.go:59-68 | the nested map holds exactly the stored pairs |
| ConfigTags.DiffTags | config/config_file_tag.go:99-128 | a flat list of exactly the pairs of the first map that the second lacks, each once |
| ConfigTags.DoCreateConfigFileTags | config/config_file_tag.go:218-250 | adds exactly the listed pairs, or part of them on failure; on a reliable store it succeeds exactly when the store has no unique key or the pairs are new and distinct, and without a unique key it overwrites exactly when they are not |
| ConfigTags.DoDeleteConfigFileTags | config/config_file_tag.go:252-275 | removes exactly the listed pairs, or part of them on failure |
| ConfigTags.CreateConfigFileTags | config/config_file_tag.go:33-96 | on success the file's pairs are the requested ones; on any failure no requested pair is lost and none appears that was neither stored nor requested; other files are untouched; on a reliable store it succeeds if and only if the store has no unique key, the file had tags, or no pair is repeated; a success writes a pair that is there if and only if neither of the last two holds |
| L5Sections.ServedExactly | cache/l5.go:336-377 | a section is served exactly when some delivery of it is valid and the last of its module and range |
| L5Sections.ServedUnique | cache/l5.go:336-377 | no two served sections have the same module and range |
| L5Sections.CurrentSnoc | cache/l5.go:342-370 | one more delivery replaces what has its key and leaves the others in order |
| L5Sections.RemoveOld | cache/l5.go:355-361 | removing the first match removes every match |
| L5Sections.L5Cache.SetCL5Section | cache/l5.go:336-377 | after any run the lists are the last writes in delivery order, and the flow is the greatest one seen |
| L5Sections.L5Cache.GetSection | cache/l5.go:198-211 | returns exactly the last valid writes of the module, in delivery order |
| L5Sections.L5Cache.Clear | cache/l5.go:113-123 | forgets the sections and the flow |

## Left out

- CircuitBreaker.CircuitBreakerCache.GetCircuitBreakerConfig: returns a value, where the source returns the shared bucket itself, which later updates change under the reader.
- FetchWindow.NoLostUpdate: modify times lie after the first second of Unix time, the store clock is at least the look-back, and a clear happens between updates.
- InstanceCache.AlwaysValidIff: a batch has each instance id once, as the store returns it; the periodic comparison of the instance count with the store, which forces a full fetch, and the port and revision bookkeeping are not modelled.
- ServiceCache.Cache.SetServices: states the batch with instance counts that stand still; the interleavings are covered by `ServiceCounts`.
- ServiceCache.Cache.PostProcessUpdatedServices: likewise.
- ServiceCounts.StepKeepsInv: a service id keeps its namespace and name, clearing happens between batches, and a namespace is not cleaned while it is being counted.
- StrategySpec.RunIsInverse: a batch has each strategy id once, as the store returns it.
- RateLimitBucket.Bucket.SetRateLimit: rules arrive decoded; the JSON decoding, the rules it rejects and the in-place repair of rules that wait for their service are not modelled.
- RoutingRules.AlwaysListsRightIff: for rules and queries with separable namespaces; `NoScopeMissed` covers all names.
- RoutingRules.SaveListsIff: likewise.
- LongPollServer.ConnManager.NotifyToWatchers: a callback is one step; races inside a callback and blocking on the response channel are not modelled. The double check when a file gets its first watcher is in `LongPollWatch`.
- LongPollServer.ConnManager.AddConn: a client id is used for one connection only; the server makes a new one for each request, from the client address and a random suffix (config/client_config_file.go:167).
- LongPoll.OpenKeepsInv: likewise.
- LongPoll.LongPollSafety: a connection is added in one step; `LongPollWatch` takes that apart.
- LongPollWatch.StepKeepsEntered: a client id is used for one connection; a response is one step, after registration, since the channel is unbuffered; of a file listed twice, the announcement that meets the first version while the second is being registered is not modelled.
- LongPollDelivery.WaitsInVainIff: for live files; the capacity of the announcement queue is not modelled.
- ReleaseCache.CacheFollowsReleases: loads and scans read one table, where MySQL scans may read a replica; a load is one read of the table.
- ScannerService.HandledReleaseIff: the query returns each file once.
- ScannerService.ReleaseScanner.HandlerReleases: content, checksum and data key of an entry are not modelled.
- Scanner.NoMissedRelease: versions of a file grow and a commit becomes visible after its modify time.
- ServicePaging.CollectServices: the filters on names, metadata and instances are one predicate; the ports filled into a service on the way are not modelled.
- ServicePaging.CollectByName: likewise.
- ServicePaging.PagesTileIff: for lists shorter than 2^32, beyond which the amount is truncated.
- IpCodec.ParseIPStr2IntV2: the shift count does not wrap, which would take 2^61 dots.
- ConfigTags.CreateConfigFileTags: tags are compared exactly, without the database's collation and without the ambiguity of the "@"-joined record keys of BoltDB; the transaction around the calls is not modelled.
- L5Sections.L5Cache.SetCL5Section: a list is a value, so readers that hold the linked list while it changes are not modelled. Routes, policies and IP configurations are left out.
- SHA-1 with hex encoding is an arbitrary function of the bytes fed to it.
- Errors of the hash writer, which never occur, logging, metrics, listeners and revision notifications.
- The store: its queries are parameters or step-machine commits with stated delays.
- The fault-detect index, which does not seed new buckets from the wider tiers.
- The service counter, aliases, the CL5 names and the service list revision of the service cache.
- Users themselves in the user cache (admin, owners, name index).
- V1 routing rules and their conversion; descending orders and client paging.
- Authorisation wrappers, API servers, plugins, bootstrap and request validation.
