# Verified model of the blocklist daemon's core algorithms

This project models the parts of the daemon whose correctness is not local to
one function, and proves what they are for:

- **Entity artifacts** (`EntityDetail`, `EntityTotals`, `EntityArtifacts`,
  `EntityWrite`, `EntitySurgical`, `EntityRepair`, `EntityPublish`). Feed sidecars
  are aggregated into country and ASN details, whose every total is a sum over
  the rows of the sidecars. An incremental run rebuilds only what
  changed feeds mention, a surgical refresh only the details to which a feed's
  contribution changed, a full run everything, a repair the entities it is
  given. The private details are those a full run would leave, exactly when
  sorting feed names and sorting file paths agree. With optimistic publication
  underneath, this holds between leases of every interleaving, from an
  aggregated start, or the last full write or repair of everything on, provided
  that each publication since then ran to its end and published what one of
  these four runs staged from its reads, or no private file at all.
- **Optimistic publication** (`OptimisticPublish`, `PublishAttempts`). Plans staged from unlocked
  reads, published under a lease that is granted only if the generation has not
  moved: every run equals the plans applied one after the other, and a mutation
  gives up only after three leases that others made stale.
- **Cache persistence** (`CachePersistence`, `CacheWaits`). The latest-wins save worker, its
  waiters and its replacement: what is on disk, what `Wait` means, that nothing
  accepted is forgotten and that neither waiter nor worker misses a wake-up.
- **Catalog derivation** (`Derivation`, `Expand`, `Expansion`, `Expandability`,
  `CatalogMeaning`, `Enablement`, `LastChange`, `QueryOrder`, `UpstreamTime`).
  Cycle detection, expansion of windows and merges, effective
  redistributability, enablement and the memoised last change, all on one
  finite graph: which catalogs expand, what an expanded one means to its readers,
  and when the last change depends on the order of the queries.
- **ASN counting** (`RangeTable`, `RangeWalk`, `BogonSplit`). The in-place
  sort-merge of 32-bit ranges, the lookup with maximal regions, the walker that
  counts whole regions, and the bogon split.
- **Worker fan-out** (`WorkerPool`, `FanOut`, `FanOutHistory`, `SidecarBuild`,
  `SidecarHistory`, `SidecarErrors`). Step models of the bounded job runner and
  of the sidecar build pipeline over channels: what a run returns, by what
  happened in it, and what becomes of the errors.
- **Codecs and streams** (`PresenceIndex`, `LegacyArray`, `Sanitizer`,
  `SanitizedText`). The
  binary presence index, the bash associative-array reader and the chunked line
  sanitizer.

`Names`, `GoText`, `Catalog` and `Wrappers` hold what these share: byte-wise
string order and sorted map keys, Go's white-space functions on UTF-8 bytes,
the catalog's data types, optional values and results.

Code that updates fields or arrays is modelled by classes and methods proved
against functions; goroutines, locks and channels by state machines whose steps
are the atomic sections, with invariants over every execution. Go strings are
sequences of chars below 256, one per byte. File system effects are atomic
steps that happen or fail.

Some promises do not hold on every input. Each is proved with its exact
condition, and with an input on which it fails:

- Incremental runs equal full runs exactly when the two walk orders agree
  (`IncrementalExactWhen`): the full walk sorts paths `name.json`, the merged
  walk sorts names, and `-` sorts before `.`, so for the feeds `a` and `a-b`
  the first non-empty ASN name can come from the other feed (`HyphenDisagrees`).
- A full aggregation equals the per-entity one exactly when no joint address of
  an ASN is listed before the first feed that counts addresses for it
  (`FullIsExactWhen`, `LateStartShows`).
- A full run keeps its hands off the details it writes, whatever they are,
  exactly when no file in the country directory has white space around its name
  that makes it miss its own code (`StrayNamesExactlyWhen`, `StrayName`); the
  daemon writes no such file.
- A waiter on an idle worker can sleep forever only when the newest save failed
  with an error whose text is empty (`NothingForgotten`, `SilentFailure`). The
  errors of `pkg/cache/cache.go:305-363` and both panic wrappers have texts, and
  in every run whose errors have texts no waiter is stuck (`NoWaiterStuck`).
- A validated catalog expands with a dangling parent exactly when a merge refers
  to a name that only skipped, non-positive history windows bear
  (`ValidatedClosedExactlyWhen`, `PhantomReference`).
- Merges come out redistributable as reachability in the result says, exactly
  when no allowed merge of the catalog refers to the name of a retention window
  of a forbidden merge (`RedistributableExactlyWhen`, `WindowOfForbiddenMerge`);
  validated references make sure of it (`ValidatedFlagsAreReachability`).
- The sidecar build swallows errors: that of a failed build is reported exactly
  when it was put on the channel, which the worker gives up when it finds the
  context cancelled (`ReportedExactlyWhenSent`). Of two workers that fail, the
  second can lose its error to the cancellation by the first
  (`SecondErrorLost`). A failed build never ends in nil, and unless somebody
  outside cancels, some error is reported (`SomeErrorReported`).
- A row of the ASN table takes the first name of the loaded rows merged into it
  (`SortMergeRanges`), but rows behind one that reaches 255.255.255.255 are
  swallowed with their names, because the address after it wraps around to 0
  (`TopRowStaysUnnamed`).
- The legacy reader takes the escapes `\a`, `\b`, `\v`, `\f` and `\E` for
  letters (`RoundTripExactlyWhen`, `BellBecomesLetter`).
- Where no merge or window derives from itself, the memoised last change is
  independent of the query order, whatever the cache holds, exactly when merges
  and windows form no cycle (`OrderMattersExactlyOnCycles`,
  `CyclicOrderMatters`). The loader's cycle check rejects the catalogs on which
  it fails. A feed that derives from itself alone does no harm
  (`SelfLoopIsHarmless`).
- Sanitized output is a fixed point exactly when it does not begin with another
  byte order mark (`StableExactlyWhen`, `TwoMarks`).

To check everything: `dafny verify dfyconfig.toml`.

## Model

| member | source | states |
|---|---|---|
| EntityDetail.SelectedDetailBuilder.AddCountryDetails | pkg/engine/entity_detail_selection.go:140-157 | the loop over the country rows adds each wanted row to its country's builder, as the value-level loop does |
| EntityDetail.SelectedDetailBuilder.AddAsnFeedDetails | pkg/engine/entity_detail_selection.go:159-175 | the first ASN loop: counted rows of wanted ASNs, builders created on the way only in full mode |
| EntityDetail.SelectedDetailBuilder.AddAsnCountryDetails | pkg/engine/entity_detail_selection.go:177-195 | the second ASN loop: joint country shares go to existing builders only |
| EntityDetail.SelectedDetailBuilder.AddFeedSidecar | pkg/engine/entity_detail_selection.go:120-138 | one visited sidecar passes through the three loops in order |
| EntityDetail.CountryLoopAt | pkg/engine/entity_detail_selection.go:140-157 | looked at in one wanted country, the map-wide loop is that country's own contribution, and creates no other builder |
| EntityDetail.AsnLoopsAt | pkg/engine/entity_detail_selection.go:159-195 | looked at in one wanted ASN, the two map-wide loops are that ASN's own contribution |
| EntityDetail.ResultsAreDetails | pkg/engine/entity_detail_selection.go:67-233 | targeted or full, the detail of a wanted entity is the fold of every feed's contribution to that entity alone, present or absent alike |
| EntityDetail.FullIsExactWhen | pkg/engine/entity_detail_selection.go:159-195 | rows without addresses: full aggregation equals the ASN's own detail if and only if nothing joint is listed before the first counting feed |
| EntityDetail.LateStartShows | pkg/engine/entity_detail_selection.go:159-195 | one feed that lists a joint address of an ASN without counting any, before one that counts some, makes the full aggregation lose it |
| EntityDetail.BuildFromWalk | pkg/engine/entity_detail_selection.go:94-109 | the returned maps hold exactly the entities with a non-empty result, each with that result |
| EntityTotals.CountryDetailsTell | pkg/engine/home_entity_precompute.go:38-102 | an aggregation has a detail for exactly the wanted countries that the walk mentions; its feeds are the rows of the country in walk order, its total their sum, and each ASN's entry has the number, the addresses and the first name of the counted joint rows |
| EntityTotals.AsnDetailsTell | pkg/engine/home_entity_precompute.go:134-161 | the same of ASNs: feeds, facets, name and total from the counted rows, and each country's share the joint rows of the sidecars that list the ASN, once a listing |
| EntityTotals.ConsistentTells | pkg/engine/entity_artifacts_write.go:384-415 | in a consistent store these are the countries and ASNs that have a file, and this is what the files say |
| EntityTotals.FilesAgree | pkg/engine/entity_detail_selection.go:177-195 | where every sidecar lists each ASN it has joint addresses of once, the country's file and the ASN's file agree on the rows and addresses they share |
| EntityTotals.WalkVisits | pkg/engine/entity_feed_sidecar_stream.go:17-43 | a walk visits each listed sidecar once, with the maintainer's URL of its feed |
| EntityTotals.UnwantedStayEmpty | pkg/engine/entity_detail_selection.go:65-75 | an entity that was not asked for is never filled |
| EntityArtifacts.ListingUnique | pkg/engine/entity_feed_sidecar_stream.go:17-43 | a set of feeds has only one sorted walk |
| EntityArtifacts.WiderWalk | pkg/engine/entity_feed_sidecar_stream.go:45-114 | walking the names of both committed and replaced feeds sees the same sidecars as walking the result |
| EntityArtifacts.UntouchedFold | pkg/engine/entity_artifacts_write.go:282-313 | sidecars that differ only in feeds not mentioning an entity give that entity the same aggregate |
| EntityArtifacts.UntouchedDetail | pkg/engine/entity_artifacts_write.go:282-313 | an entity mentioned by no changed feed, in its old or new sidecar, keeps its detail |
| EntityArtifacts.ConsistentUnique | pkg/engine/entity_artifacts_write.go:384-415 | the feed sidecars determine the details of a consistent store |
| EntityArtifacts.IncrementalKeepsConsistent | pkg/engine/entity_artifacts_write.go:182-301 | after an incremental write of a consistent store every detail, touched, untouched or deleted, is the aggregate of the new sidecars |
| EntityArtifacts.RunsKeepConsistent | pkg/engine/entity_artifacts_write.go:53-83 | any run of incremental and full writes that begins consistent, or with a full write, ends consistent |
| EntityArtifacts.RunsEndWhereFullWould | pkg/engine/entity_artifacts_write.go:53-83 | any such run ends in the very store one full rebuild of the final sidecars leaves |
| EntityArtifacts.WritesReplaceTargets | pkg/engine/entity_artifacts_write.go:53-83 | after a write every target has its new sidecar or none; an incremental one leaves the others, a full one drops them |
| EntityArtifacts.DisagreementShows | pkg/engine/entity_feed_sidecar_stream.go:17-114 | two feed names whose orders disagree have sidecars for which the incremental write differs from the full one |
| EntityArtifacts.HyphenDisagrees | pkg/engine/entity_feed_sidecar_stream.go:17-114 | the feed names `a` and `a-b` are such names |
| EntityArtifacts.IncrementalExactWhen | pkg/engine/entity_feed_sidecar_stream.go:17-114 | incremental writes keep every store over a set of feed names consistent if and only if name order and path order agree on them |
| EntityWrite.EntityArtifactWriteState.StageFeedSidecar | pkg/engine/entity_artifacts_write.go:221-259 | an unchanged sidecar of an incremental run stages nothing; any other is staged, or its file marked for deletion, and the feed recorded as changed |
| EntityWrite.EntityArtifactWriteState.StageFeedSidecars | pkg/engine/entity_artifacts_write.go:182-195 | after the loop exactly the feeds whose sidecar differs are changed, staged or deleted |
| EntityWrite.EntityArtifactWriteState.CollectAffectedEntities | pkg/engine/entity_artifacts_write.go:282-313 | the affected entities are exactly those mentioned by a changed feed, before or after |
| EntityWrite.EntityArtifactWriteState.StageFullFeedSidecars | pkg/engine/entity_artifacts_write.go:167-219 | a full run stages every sidecar, deletes every stale one, and collects every mentioned entity |
| EntityWrite.EntityArtifactWriteState.MarkStaleDetailDeletes | pkg/engine/entity_artifacts_write.go:334-382 | whatever files lie in the two directories: exactly those whose upper-cased name, or parsed number, is not affected have their detail path marked, and names that are no 32-bit number are skipped |
| EntityWrite.StaleDetails | pkg/engine/entity_artifacts_write.go:334-382 | a full run deletes every detail nobody mentions any more, and none that it also writes |
| EntityWrite.StrayNamesExactlyWhen | pkg/engine/entity_artifacts_write.go:352-364 | whatever is affected, no affected country is deleted, if and only if every country file's upper-cased name is the code in its path |
| EntityWrite.StrayName | pkg/engine/entity_artifacts_write.go:358-361 | a file ` us.json` is such a stray |
| EntityWrite.EntityArtifactWriteState.StageDetails | pkg/engine/entity_artifacts_write.go:384-415 | of the affected entities those with a detail are written and the others deleted |
| EntityWrite.WalkMerged | pkg/engine/entity_feed_sidecar_stream.go:45-114 | the merged walk visits the committed sidecars with the replacements applied, in name order, each feed once |
| EntityWrite.WalkDir | pkg/engine/entity_feed_sidecar_stream.go:17-43 | the directory walk visits every sidecar once, in path order |
| EntityWrite.WriteIncremental | pkg/engine/entity_artifacts_write.go:53-83 | the staged batch depends on the sidecars alone: published over any store with these sidecars it rebuilds what the changed feeds touch and leaves the rest |
| EntityWrite.WriteFull | pkg/engine/entity_artifacts_write.go:53-83 | the staged batch overwrites or deletes every file found, and published it leaves the new sidecars and their aggregate |
| EntitySurgical.CountryVisitIsContribution | pkg/engine/entity_feed_sidecar.go:288-300 | what a visited sidecar adds to a country is determined by its contribution: feed row and counted joint rows |
| EntitySurgical.AsnVisitIsContribution | pkg/engine/entity_feed_sidecar.go:302-315 | what a visited sidecar adds to an ASN is determined by its contribution: feed row, name and country shares |
| EntitySurgical.SameContributionsFold | pkg/engine/entity_surgical_delta.go:85-115 | sidecars with the same contributions to an entity, feed by feed, give it the same aggregate |
| EntitySurgical.SurgicalKeepsConsistent | pkg/engine/entity_surgical_refresh.go:54-84 | rebuilding only the details to which a refreshed feed's contribution changed keeps a consistent store consistent |
| EntitySurgical.EntitySurgicalRefreshState.AddChangedActorTargets | pkg/engine/entity_surgical_delta.go:85-115 | the targets added are exactly the entities whose contribution differs between the two sidecars, mentioned by either or not |
| EntitySurgical.EntitySurgicalRefreshState.LoadFeedDeltas | pkg/engine/entity_surgical_refresh.go:119-164 | calls for a full rebuild if and only if some feed must; else every refreshed feed is staged or marked, and exactly the changed entities are targets |
| EntitySurgical.RefreshSurgically | pkg/engine/entity_surgical_refresh.go:54-84 | unless it calls for a full rebuild, the staged batch published over any store with these sidecars is a surgical write |
| EntityPublish.BatchIsPublished | pkg/engine/web_batch.go:192-288 | renames and deletions, in whatever order, do to the files what the batch does to the store |
| EntityPublish.ReadsTellFeeds | pkg/engine/entity_feed_sidecar_stream.go:45-114 | listing the feed directory and reading every sidecar in it determines the sidecars of any store in which the reads still hold |
| EntityPublish.IncrementalKeeps | pkg/engine/entity_artifacts_write.go:53-83 | a plan that publishes what an incremental run staged from its reads keeps the details aggregated |
| EntityPublish.SurgicalKeeps | pkg/engine/entity_surgical_refresh.go:54-84 | so does one that publishes a surgical refresh |
| EntityPublish.FullEstablishes | pkg/engine/entity_artifacts_write.go:53-83 | a plan that publishes a full run staged from the names of the files leaves the details aggregated, whatever the files held |
| EntityPublish.PlanIncrement | pkg/engine/entity_artifacts_write.go:53-83 | an incremental run, from its reads to the renames and deletions it publishes, stages a plan of the first kind, whatever happens to it later |
| EntityPublish.PlanRefresh | pkg/engine/entity_surgical_refresh.go:36-48 | a surgical refresh stages one of the second kind, unless it calls for a full rebuild |
| EntityPublish.PlanRebuild | pkg/engine/entity_artifacts_write.go:53-83 | a full run stages one of the third kind |
| EntityRepair.RepairExactlyWhen | pkg/engine/entity_artifact_selected_repair.go:76-127 | a repair of named entities leaves every detail equal to the aggregate of the feed sidecars if and only if all details it does not name were so before |
| EntityRepair.RepairKeepsConsistent | pkg/engine/entity_artifact_selected_repair.go:76-127 | repairing any entities of a consistent store keeps it consistent |
| EntityRepair.RepairOfEverything | pkg/engine/entity_artifact_selected_repair.go:76-127 | naming every entity that has a detail or is mentioned by a sidecar makes any store consistent |
| EntityRepair.RewriteDetails | pkg/engine/entity_artifact_selected_repair.go:97-168 | of the named entities, those without an aggregate are deleted, and those whose private file is as it should be and whose public file exists are left alone |
| EntityRepair.RepairSelected | pkg/engine/entity_artifact_selected_repair.go:76-95 | the batch it stages, published over any store with the same sidecars and the same named details, is such a repair |
| EntityPublish.RepairKeeps | pkg/engine/entity_artifact_selected_repair.go:15-75 | a plan that publishes what a repair staged from its reads keeps the details aggregated |
| EntityPublish.RepairOfAllEstablishes | pkg/engine/entity_artifact_selected_repair.go:15-75 | one that repairs every entity leaves the details aggregated, whatever the details were |
| EntityPublish.PlanRepair | pkg/engine/entity_artifact_selected_repair.go:21-75 | a repair, from its reads to the files it publishes, stages a plan of the fourth kind |
| EntityPublish.DetailsFollowFeeds | pkg/engine/entity_artifact_publish.go:128-201 | under every interleaving, whenever no lease is held the details are the aggregate of the feed sidecars, from an aggregated start or the last completed full write or repair of everything on, if every publication since then completed and is of one of these four kinds or writes no private file |
| EntityPublish.FilesSayWhatFeedsSay | pkg/engine/home_entity_precompute.go:17-220 | and then the files say which entities the sidecars mention, which feeds list them, and the totals counted in the sidecars' rows |
| OptimisticPublish.Lease.Release | pkg/engine/entity_artifact_publish.go:113-126 | only the first release bumps the generation, if the plan mutates, and unlocks |
| OptimisticPublish.Engine.Acquire | pkg/engine/entity_artifact_publish.go:82-111 | the lease is granted if and only if the generation is the expected one; a refusal unlocks at once |
| OptimisticPublish.Engine.PublishFiles | pkg/engine/entity_artifact_publish.go:155-201 | a failing publication leaves a prefix of its writes applied |
| OptimisticPublish.Engine.PublishPlan | pkg/engine/entity_artifact_publish.go:155-201 | stale, cancelled, failed and successful publications: what becomes of the files, the generation and the lock |
| OptimisticPublish.GrantedLeaseIsFresh | pkg/engine/entity_artifact_publish.go:82-111 | a mutator that gets a lease staged from exactly the current live files |
| OptimisticPublish.StaleWitness | pkg/engine/entity_artifact_publish.go:128-153 | a refused lease witnesses bumps by other mutators since the generation was sampled |
| OptimisticPublish.Safety | pkg/engine/entity_artifact_publish.go:82-201 | the protocol invariant holds in every state of every execution |
| OptimisticPublish.Serializable | pkg/engine/entity_artifact_publish.go:82-201 | between leases the live files are the plans applied in lease order to the start, each plan staged from what its predecessors left |
| OptimisticPublish.LeasesUnlockedOnce | pkg/engine/entity_artifact_publish.go:113-126 | every lease taken is unlocked exactly once, and none outlives its mutator |
| OptimisticPublish.NoDeadlock | pkg/engine/entity_artifact_publish.go:128-153 | with nobody giving up, failing or panicking, an unfinished mutator can take its next step, or it has staged its plan and waits for a lease holder that can take its own |
| OptimisticPublish.GoodAfterEstablishing | pkg/engine/entity_artifact_publish.go:128-201 | a property that a complete plan establishes from what it read holds right after its publication |
| OptimisticPublish.GoodAfterCommits | pkg/engine/entity_artifact_publish.go:128-201 | a property that holds after some publications in lease order survives all later ones, if they are complete and keep it |
| PublishAttempts.OutOfAttemptsExactlyWhen | pkg/engine/entity_artifact_publish.go:128-153 | in every run a mutation is refused the lease three times at most, and ends out of attempts if and only if it was refused three times |
| PublishAttempts.RefusedStartsAgain | pkg/engine/entity_artifact_publish.go:128-153 | a first or second refusal sends it back to its start |
| PublishAttempts.StagesFromLive | pkg/engine/entity_artifact_publish.go:128-140 | whatever the attempt, staging begins at the generation of the moment with nothing read, and reads what is live then |
| PublishAttempts.RefusedExactlyWhen | pkg/engine/entity_artifact_publish.go:82-126 | a lease is refused if and only if, since the generation was last sampled, another mutator ended a publication that may have changed files |
| PublishAttempts.WitnessesDiffer | pkg/engine/entity_artifact_publish.go:128-153 | two refusals have different publications by others behind them, with a new sample in between |
| PublishAttempts.OutcomesTell | pkg/engine/entity_artifact_publish.go:128-201 | a mutation publishes at most once, ends committed only after its whole plan, and with nothing to do or out of attempts only without having published |
| CachePersistence.CachePersistenceWorker.constructor | pkg/engine/cache_persistence.go:43-52 | a new worker has accepted, saved and failed nothing |
| CachePersistence.CachePersistenceWorker.Submit | pkg/engine/cache_persistence.go:54-72 | a stopping worker refuses; otherwise the snapshot gets the next number and replaces the pending one |
| CachePersistence.CachePersistenceWorker.Next | pkg/engine/cache_persistence.go:182-209 | the worker takes the pending snapshot, or ends when it is stopping and none is pending |
| CachePersistence.CachePersistenceWorker.Finish | pkg/engine/cache_persistence.go:211-229 | a save moves its number to completed or, with its error, to failed |
| CachePersistence.CachePersistenceWorker.RequestStop | pkg/engine/cache_persistence.go:163-180 | stop is recorded, and only the first request broadcasts |
| CachePersistence.CachePersistenceWorker.RecoverPanic | pkg/engine/cache_persistence.go:231-261 | after a panic the worker is stopped, what it had in hand failed, nothing is pending |
| CachePersistence.CachePersistenceWorker.CheckWait | pkg/engine/cache_persistence.go:129-161 | one turn of the wait loop: saved, failed, stopped, cancelled or asleep, in the code's order |
| CachePersistence.InvStep | pkg/engine/cache_persistence.go:54-261 | every step keeps the numbering, the disk and the wake-up invariant, and takes nothing back |
| CachePersistence.Safety | pkg/engine/cache_persistence.go:54-261 | in every reachable state inFlight < pending = accepted, the disk holds exactly the snapshot with the completed number, and at most the newest worker runs |
| CachePersistence.Monotone | pkg/engine/cache_persistence.go:182-229 | numbers only grow and the disk never goes back to an older snapshot |
| CachePersistence.WaitNilMeansSaved | pkg/engine/cache_persistence.go:129-161 | when `Wait` returns nil the disk holds a snapshot numbered at least the one waited for, or one of a later worker |
| CachePersistence.NothingForgotten | pkg/engine/cache_persistence.go:182-229 | barring a panic the accepted number is pending, in flight, completed or failed; a stopped worker releases every waiter; an idle one does if and only if its newest save did not fail with an empty error text |
| CachePersistence.WorkerNeverOversleeps | pkg/engine/cache_persistence.go:190-209 | the worker sleeps only with nothing pending and no stop requested; with something to save, or to end, it has a step of its own |
| CachePersistence.NoWaiterStuck | pkg/engine/cache_persistence.go:129-261 | in every run whose errors have texts, a waiter for an accepted number sleeps with no wake-up on its way only while its worker, not stopped, has a snapshot pending or being saved and a step of its own to take |
| CachePersistence.SilentFailure | pkg/engine/cache_persistence.go:146-148 | one failed save with an empty error text leaves an idle worker on which a waiter goes to sleep |
| CachePersistence.StopDrains | pkg/engine/cache_persistence.go:163-180 | a worker that ended without a panic has saved its last accepted snapshot or failed to |
| CachePersistence.SavesNeverOverlap | pkg/engine/cache_persistence_engine.go:18-25 | across all workers ever made, no two saves are under way at once |
| CachePersistence.SleepersHaveReason | pkg/engine/cache_persistence.go:129-161 | no wake-up is lost: a sleeping waiter would sleep again, or its wake-up is on its way |
| CacheWaits.FieldsAreHistory | pkg/engine/cache_persistence.go:54-261 | in every state the numbers, counters, last error and flags of every worker are those of the saves, failures, stops and panics that happened to it |
| CacheWaits.LookTells | pkg/engine/cache_persistence.go:140-158 | a look at a number answers nil if and only if its worker completed a save numbered at least that; the last text if and only if it did not, one numbered at least that failed and the text is not empty; stopped, then cancelled, when nothing before holds; and sleeps otherwise |
| CacheWaits.LookEndsWait | pkg/engine/cache_persistence.go:140-158 | a wait goes on exactly when none of these has happened |
| CacheWaits.StopRefuses | pkg/engine/cache_persistence.go:54-72 | a worker accepts snapshots until it is asked to stop or panics, and none after |
| CacheWaits.EnsuredWorkerRuns | pkg/engine/cache_persistence_engine.go:18-25 | whoever asks for the worker gets the newest if it has not stopped, else a new one |
| Derivation.CycleSearch.Visit | pkg/config/dependents.go:78-115 | a visit blackens its node or has found a cycle, and reports a node on the stack |
| Derivation.CycleSearch.VisitParents | pkg/config/dependents.go:101-110 | after the loop over the parents they are finished and ranked, unless a cycle was found |
| Derivation.CycleSearch.ReportCycle | pkg/config/dependents.go:83-95 | the reported list is a closed path of edges |
| Derivation.RankedIsAcyclic | pkg/config/dependents.go:70-130 | a ranking by finishing order is a certificate of acyclicity |
| Derivation.AcyclicIsRanked | pkg/config/dependents.go:70-130 | every acyclic graph has such a ranking |
| Derivation.DetectCycles | pkg/config/dependents.go:70-130 | nothing is reported if and only if the graph is acyclic, and every reported cycle is genuine |
| Expand.Config.EmitWindow | pkg/config/expand.go:185-227 | a free variant name is taken by a clone of the parent; a taken one is a collision that no expansion avoids |
| Expand.Config.EmitWindows | pkg/config/expand.go:179-228 | all positive windows of a parent are emitted, unless one is listed twice or its name is taken |
| Expand.Config.ExpandRetentionWindows | pkg/config/expand.go:170-235 | succeeds if and only if every parent with windows has a feed body and no two windows or sources clash, and then adds exactly the wanted variants and clears exactly the parents' history |
| Expand.RefAllowedMeans | pkg/config/expand.go:297-324 | whichever merges were already rewritten, a decided reference is decided as reachability in the original catalog |
| Expand.CycleErrorIsGenuine | pkg/config/expand.go:301-309 | the redistributability cycle error occurs only when the merges really form a cycle |
| Expand.AllowedStep | pkg/config/expand.go:297-324 | reachability of a forbidden source, one reference at a time |
| Expand.Config.EffectiveMergeRedistributable | pkg/config/expand.go:271-295 | the flag a merge gets: forbidden if it or anything reachable is, else its own |
| Expand.Config.ExpandMerge | pkg/config/expand.go:87-149 | one merge becomes a source with its cleaned references and effective flag, or an error has a reason |
| Expand.Config.ExpandMerges | pkg/config/expand.go:82-149 | all merges become sources with the flags reachability gives, independent of the order |
| Expand.ValidateSignedMergeRefs | pkg/config/expand.go:326-346 | accepts if and only if no reference repeats within or across the two lists |
| Expand.ExpandedCatalog | pkg/config/expand.go:58-168 | lossless and exact: every original source kept but for its history, every window and merge under its own name, nothing else, no name claimed twice |
| Expand.Config.Expand | pkg/config/expand.go:58-168 | succeeds if and only if the catalog has an expansion, which it then leaves: no merges, acyclic |
| Expandability.ExpandsExactlyWhen | pkg/config/expand.go:58-168 | a catalog can be expanded if and only if windows are asked of feeds with a body and never twice, merges add something, repeat nothing and take no feed's name, every window gets a name of its own, and nothing is made from itself |
| Expandability.ExpandCatalog | pkg/config/expand.go:58-168 | the expander succeeds on exactly these catalogs |
| CatalogMeaning.MergeMeaning | pkg/config/expand.go:95-149 | an expanded merge adds the trimmed sources and subtracts the trimmed excludes of the curator, each in order and none in both, in its lists and its URL |
| CatalogMeaning.WindowMeaning | pkg/config/expand.go:192-227 | a window is derived from its parent alone, is plain whatever its parent is, and keeps the parent's flag and texts |
| CatalogMeaning.LabelsTellHours | pkg/config/expand.go:446-456 | two windows of a feed get the same name if and only if they show the same days and hours |
| CatalogMeaning.SameHourCollides | pkg/config/expand.go:185-191 | a catalog with two windows of a feed within the same hour cannot be expanded |
| CatalogMeaning.UsualLabels | pkg/config/expand.go:446-456 | the names of the windows in use |
| CatalogMeaning.MergeOnWhen | pkg/engine/enabled_state.go:59-66 | an expanded merge is enabled if and only if it is marked and one of the curator's additive references is enabled; what it subtracts never counts |
| CatalogMeaning.WindowOnWhen | pkg/engine/enabled_state.go:51-58 | a retention window is enabled if and only if it is marked and its parent is enabled |
| CatalogMeaning.MergeAsksAll | pkg/engine/effective_entry.go:91-99 | for its last change a merge asks all its references, subtracted ones too |
| CatalogMeaning.WindowAsksParent | pkg/engine/effective_entry.go:91-99 | a window asks its parent and nobody else |
| Expansion.CollectGeneratedNames | pkg/config/validate.go:205-228 | the generated names are the sources, their windows, the synthetic names and the merges |
| Expansion.ValidateMergeReferences | pkg/config/validate.go:239-268 | accepts if and only if every merge is usable and refers to generated names only |
| Expansion.NoHistoryLeft | pkg/config/expand.go:229-233 | after expansion no source has windows left to expand |
| Expansion.ClosedExactlyWhenResolved | pkg/config/expand.go:58-168 | every parent of an added source is known if and only if every merge reference is |
| Expansion.DanglingExactlyWhenSkipped | pkg/config/expand.go:179-228 | a validated reference is unknown after expansion if and only if it is no source, merge, synthetic name or positive window of the catalog |
| Expansion.ValidatedClosedExactlyWhen | pkg/config/validate.go:205-268 | after validation every parent is known if and only if no merge refers to a name the catalog has for skipped windows only |
| Expansion.PositiveWindowsClose | pkg/config/validate.go:205-268 | with positive windows and validated references every parent of an added source is a known name |
| Expansion.PhantomReference | pkg/config/expand.go:182-184 | a zero window whose name a merge uses is validated, skipped, and left dangling |
| Expansion.RedistributableExactlyWhen | pkg/config/expand.go:271-324 | a merge is redistributable exactly when its own flag and everything it reaches in the result allow it, if and only if no allowed merge of the catalog refers to a positive window of a forbidden one |
| Expansion.AllowedInCatalog | pkg/config/expand.go:271-324 | what the expander decides on its half-expanded catalog is reachability of a forbidden source or merge in the catalog as it was given |
| Expansion.ValidatedFlagsAreReachability | pkg/config/expand.go:271-324 | on validated catalogs a merge is redistributable if and only if its own flag and everything it reaches allow it |
| Expansion.WindowOfForbiddenMerge | pkg/config/expand.go:297-304 | unvalidated, a merge over the window of a forbidden merge comes out redistributable |
| Expansion.NameTellsParent | pkg/config/validate.go:190-203 | two windows with the same generated name have the same parent |
| Enablement.EnabledIsReachability | pkg/engine/enabled_state.go:30-71 | on any graph a feed is enabled if and only if a chain of marked feeds leads through inherited inputs to a marked base feed |
| Enablement.EnabledHasChain | pkg/engine/enabled_state.go:30-71 | an enabled feed has a chain that repeats no feed and avoids those already on the path |
| Enablement.SimpleChainEnables | pkg/engine/enabled_state.go:38-42 | the set of names on the path never blocks a simple chain |
| Enablement.ChainSimplifies | pkg/engine/enabled_state.go:38-42 | every chain can be cut down to a simple one |
| Enablement.Resolver.ArtifactIsEnabled | pkg/engine/enabled_state.go:78-89 | a known artifact parent is enabled by its marker, the switch or the override; the path set is restored |
| Enablement.Resolver.SourceIsEnabled | pkg/engine/enabled_state.go:30-71 | the recursion with in-place push and pop computes the path-set recursion and restores both sets on every return |
| Enablement.EffectiveSourceEnabledForRun | pkg/engine/enabled_state.go:26-28 | the answer is the existence of an enabling chain, with only the root's marker overridable |
| Enablement.OnStep | pkg/engine/enabled_state.go:30-71 | on any graph a feed is enabled if and only if it is marked and a base feed or has an enabled input |
| Enablement.MergeFeedOn | pkg/engine/enabled_state.go:59-66 | a merge is enabled when it is marked and an additive input is; old merges add all parents |
| Enablement.ArtifactFeedOn | pkg/engine/enabled_state.go:48-50 | a feed of an artifact needs its own marker and a known, marked artifact |
| Enablement.PlainFeedOn | pkg/engine/enabled_state.go:43-71 | a feed that is neither an artifact's nor derived is on exactly when it is marked |
| Enablement.UnknownFeedOff | pkg/engine/enabled_state.go:34-37 | a name that is no feed is off |
| Enablement.OverrideIsMarker | pkg/engine/enabled_state.go:26-28 | overriding the root does what its marker would do, and nothing more |
| LastChange.EffectiveEntryResolver.LastChange | pkg/engine/effective_entry.go:79-108 | memo and visiting set updated in place give the functional resolver's answer and memo; terminates on any graph |
| LastChange.ResolveIsValue | pkg/engine/effective_entry.go:79-108 | where merges and windows form no cycle the memoised answer, and every memo entry, is the plain recursion's value |
| LastChange.QueryOrderIrrelevant | pkg/engine/effective_entry.go:79-108 | where merges and windows form no cycle no answer depends on earlier queries |
| LastChange.CheckedIsAcyclic | pkg/config/expand.go:164-166 | the loader's check of all derivations covers the ones the resolver descends |
| QueryOrder.SeesAnswers | pkg/engine/effective_entry.go:86-88 | while a feed is being visited, whoever can still reach it answers at least its own time |
| QueryOrder.FirstFinished | pkg/engine/effective_entry.go:79-108 | a query into a cycle memoises some feed of the cycle without ever seeing that feed's own time |
| QueryOrder.OrderMattersExactlyOnCycles | pkg/engine/effective_entry.go:79-108 | where no merge or window derives from itself, every feed gets one answer for every cache and every history of queries if and only if merges and windows form no cycle |
| QueryOrder.SelfLoopIsHarmless | pkg/engine/effective_entry.go:86-88 | a feed that derives from itself alone answers its own time in any order |
| QueryOrder.CyclicOrderMatters | pkg/engine/effective_entry.go:86-88 | on a two-merge cycle, which the loader rejects, the answer depends on which end was asked first |
| LastChange.ValueRankFree | pkg/engine/effective_entry.go:79-108 | the plain recursion does not depend on how acyclicity was shown |
| LastChange.AnswerAll | pkg/engine/effective_entry.go:79-108 | without a cycle of merges and windows, a series of queries gets the plain recursion's answers |
| UpstreamTime.ValueIsUpstreamTime | pkg/engine/effective_entry.go:79-118 | without a cycle the last change of a feed is the newest time among the feeds it is made of, found where nothing below has one, and its own when there is none |
| UpstreamTime.AnswerQueries | pkg/engine/effective_entry.go:79-118 | every series of queries is answered with these times |
| UpstreamTime.WhoIsAsked | pkg/engine/effective_entry.go:91-95 | merges and windows ask all their parents, other feeds nobody |
| RangeTable.SortMergeRanges | pkg/asnloc/backend_rangetable.go:122-160 | the slice returned in place is strictly ascending and disjoint, touching rows differ in ASN, every address keeps the ASN of the first sorted row containing it, and every row has the first non-empty name, in sorted order, of the rows of its ASN merged into it; only a row swallowed by another ASN, or at the top of the address space, gives its name to none |
| RangeTable.MergeSorted | pkg/asnloc/backend_rangetable.go:135-159 | the in-place loop is the functional merge of the sorted rows |
| RangeTable.MergeRefines | pkg/asnloc/backend_rangetable.go:136-158 | merging keeps the attribution of every address and leaves a well-formed table |
| RangeTable.MergeGroups | pkg/asnloc/backend_rangetable.go:136-158 | every sorted row ends up in one row of the table that is of its ASN, reaches as far and has the first of their names, unless it is swallowed |
| Names.FirstNonEmptyUnique | pkg/asnloc/backend_rangetable.go:144-146 | a list of names has one first non-empty name |
| RangeTable.TopRowStaysUnnamed | pkg/asnloc/backend_rangetable.go:140 | a row that reaches 2^32-1 takes no name from a later row of its ASN |
| RangeTable.StepRefines | pkg/asnloc/backend_rangetable.go:136-158 | one round keeps the refinement, the wrap of last.hi+1 at 2^32-1 included |
| RangeTable.TotalIsUnion | pkg/asnloc/backend_rangetable.go:35-42 | the precomputed total is the size of the union of the rows and fits 2^32 |
| RangeTable.NewBackend | pkg/asnloc/backend_rangetable.go:35-42 | the backend attributes and names as the sorted input, and its total is the size of the input's union |
| RangeTable.FirstAbove | pkg/asnloc/backend_rangetable.go:59-61 | binary search finds the first row starting above the address |
| RangeTable.RespondsRight | pkg/asnloc/backend_rangetable.go:53-94 | the answer is the address's ASN with a network around it of constant attribution, maximal on both sides, on the low side only for a non-empty table |
| RangeTable.Lookup | pkg/asnloc/backend_rangetable.go:53-94 | the binary search gives that answer |
| RangeTable.GapRegion | pkg/asnloc/backend_rangetable.go:69-93 | the computed gap bounds are exactly the unattributed region around the address |
| RangeWalk.TableIsSound | pkg/asnloc/backend_rangetable.go:53-94 | the backend that answers with the table's lookup gives the walker correct answers over maximal regions |
| RangeWalk.WalkConserves | pkg/asnloc/asnloc.go:245-269 | whatever a backend answers, a completed walk charges each address of the range once in total |
| RangeWalk.WalkRefinesPerIP | pkg/asnloc/asnloc.go:245-269 | each ASN is charged exactly the addresses attributed to it one at a time, up to 2^32-1 |
| RangeWalk.WalkLookupsPerRegion | pkg/asnloc/asnloc.go:245-269 | the walker makes exactly one lookup per maximal region |
| RangeWalk.Tally.CountRange | pkg/asnloc/asnloc.go:245-269 | the cursor loop charges counts and names as the walk does and stops on error; it terminates for any backend |
| RangeWalk.Tally.CountFeed | pkg/asnloc/asnloc.go:157-172 | the feed loop charges counts and names range after range up to a failure |
| RangeWalk.LearnsLatest | pkg/asnloc/asnloc.go:262-264 | the names map keeps, of every attributed ASN, the non-empty name seen last |
| RangeWalk.ChargeAdds | pkg/asnloc/asnloc.go:259-263 | charging a walk adds its spans to each ASN and to the total |
| RangeWalk.FeedConserves | pkg/asnloc/asnloc.go:157-172 | over a feed the counts add up to the number of its addresses |
| RangeWalk.FeedRefinesPerIP | pkg/asnloc/asnloc.go:157-172 | over a feed each ASN's count is the number of feed addresses attributed to it |
| RangeWalk.CountFeedInRows | pkg/asnloc/backend_rangetable.go:35-42 | from loaded rows in any order to counts: every ASN gets exactly the feed addresses whose first sorted row is its own, together the counts are the whole feed, every name reported is one of the loaded rows of its ASN, and an ASN whose rows are all named is reported exactly when it has addresses |
| BogonSplit.SplitConserves | pkg/asnloc/asnloc.go:225-243 | attributed, unknown and bogon addresses add up to the feed for any backend |
| BogonSplit.SplitPerAddress | pkg/asnloc/asnloc.go:183-243 | with a sound backend the split is the one counted address by address |
| BogonSplit.CountFeedExcluding | pkg/asnloc/asnloc.go:183-223 | the counts and names are those of the feed without the bogons |
| BogonSplit.CountFeedWithBogons | pkg/asnloc/asnloc.go:230-243 | counts, names and bogon number of one feed, or nothing on an error |
| BogonSplit.PrecomputeSplits | pkg/engine/asn.go:206-256 | every precomputed entry is its feed's bogon count, the disjointness shortcut to zero included |
| BogonSplit.CountFeedSplit | pkg/engine/asn.go:258-275 | the precomputed and the direct path give the same split, and it conserves the feed |
| BogonSplit.BuildFeedJson | pkg/engine/asn.go:277-314 | the payload's totals add up, ASN 0 appears only as unknown, every other ASN has one row, in output order |
| FanOut.JoinedErrorCollector.Add | pkg/engine/concurrency.go:28-37 | appends an error and tells whether it was the first; nil changes nothing |
| FanOut.Safety | pkg/engine/concurrency.go:51-109 | in every state each job handed over is in exactly one place, running, completed or failed |
| FanOut.NilMeansExactlyOnce | pkg/engine/concurrency.go:51-109 | a nil result means every name was processed exactly once and none failed |
| FanOut.NeverTwice | pkg/engine/concurrency.go:94-101 | whatever the outcome no name is processed twice |
| FanOut.NoErrorSwallowed | pkg/engine/concurrency.go:69-73 | a failed job's error is in the joined error of any later result |
| FanOut.NoDeadlock | pkg/engine/concurrency.go:75-103 | until there is a result some step is possible that waits for nothing but a running job |
| FanOut.RunsEnd | pkg/engine/concurrency.go:75-103 | every run ends within a number of steps known at the start |
| FanOutHistory.ResultIsHistory | pkg/engine/concurrency.go:105-109 | a run returns all failures in the order they happened, if there were any; otherwise the context's error if somebody outside cancelled; otherwise nil |
| FanOutHistory.JobsInOrder | pkg/engine/concurrency.go:94-103 | names are handed over in order |
| FanOutHistory.HistoryHolds | pkg/engine/concurrency.go:51-103 | the pool has the size asked for, at least one, and failures are collected as they come |
| FanOutHistory.FailedWorkerStops | pkg/engine/concurrency.go:75-92 | a worker whose job failed, or that quit, takes no other job |
| FanOutHistory.CancelledOnce | pkg/engine/concurrency.go:69-73 | however many jobs fail, the runner cancels once, and only after a failure |
| FanOutHistory.NothingToDo | pkg/engine/concurrency.go:51-58 | nothing is started for a cancelled context or no names |
| SidecarBuild.BufferSize | pkg/engine/entity_feed_sidecar_build.go:235-246 | the results channel has the most room that can be used: one item a name and one a worker, of which there is at least one |
| SidecarBuild.Safety | pkg/engine/entity_feed_sidecar_build.go:76-278 | in every state each job is in one place, every item tells what was built, and bad news is under way |
| SidecarBuild.NilMeansEachDelivered | pkg/engine/entity_feed_sidecar_build.go:76-106 | a nil result means each name was built once, none failed, and each non-nil sidecar was visited once, as built |
| SidecarBuild.NeverTwice | pkg/engine/entity_feed_sidecar_build.go:197-262 | no name is built or reported twice |
| SidecarBuild.BuildErrorsShow | pkg/engine/entity_feed_sidecar_build.go:76-106 | a run in which a build failed or an item was given up never ends in nil, and an error that reaches the channel is reported |
| SidecarBuild.VisitErrorsShow | pkg/engine/entity_feed_sidecar_build.go:86-93 | a failed visit is in the joined error |
| SidecarBuild.NoDeadlock | pkg/engine/entity_feed_sidecar_build.go:248-278 | no interleaving of cancel, error exit, send, receive and close deadlocks |
| SidecarBuild.RunsEnd | pkg/engine/entity_feed_sidecar_build.go:76-278 | every run ends within a number of steps known at the start |
| SidecarHistory.ResultIsHistory | pkg/engine/entity_feed_sidecar_build.go:76-106 | a build returns all errors the consumer recorded, in order, if there were any; otherwise the context's error if somebody outside or a worker cancelled; otherwise nil |
| SidecarHistory.HistoryHolds | pkg/engine/entity_feed_sidecar_build.go:197-262 | names are handed over in order to a pool of the size asked for, and errors are recorded as their items are received and visited |
| SidecarHistory.FailedWorkerStops | pkg/engine/entity_feed_sidecar_build.go:206-226 | a worker takes no other name once a build of its own failed, it gave a result up, or it quit |
| SidecarErrors.EveryItemLeaves | pkg/engine/entity_feed_sidecar_build.go:264-278 | before a result is returned every built item is sent, or given up with the context cancelled |
| SidecarErrors.RecordedErrorsWereSent | pkg/engine/entity_feed_sidecar_build.go:76-106 | every recorded error is about a job received from the channel |
| SidecarErrors.ReportedExactlyWhenSent | pkg/engine/entity_feed_sidecar_build.go:219-223 | a failed build's error is reported if and only if it was sent, and lost if and only if it was given up with the context cancelled |
| SidecarErrors.SomeErrorReported | pkg/engine/entity_feed_sidecar_build.go:76-106 | if nobody outside cancels, a run with a failed build ends in at least one reported error |
| SidecarErrors.SecondErrorLost | pkg/engine/entity_feed_sidecar_build.go:273-278 | a run of two failing workers that reports the first error only |
| PresenceIndex.UniqueNonEmptyStrings | pkg/engine/entity_surgical_delta.go:117-133 | the result is the sorted set of the trimmed, non-empty values |
| PresenceIndex.Marshal | pkg/engine/entity_feed_presence_index.go:80-98 | writes header, count and entries of the normal form, or refuses a name over 65535 bytes |
| PresenceIndex.Parse | pkg/engine/entity_feed_presence_index.go:100-148 | accepts data if and only if it is the marshalled form of a canonical list that passes the count guard, and returns that list |
| PresenceIndex.Load | pkg/engine/entity_feed_presence_index.go:39-67 | within the size limit exactly the marshalled files are accepted, with the set of their names |
| PresenceIndex.HeaderLayout | pkg/engine/entity_feed_presence_index.go:80-98 | a file begins with the eight bytes of the magic, version 1 and the number of names, low bytes first |
| PresenceIndex.NameLayout | pkg/engine/entity_feed_presence_index.go:80-98 | every name stands behind its two-byte length, low byte first |
| PresenceIndex.NothingBehind | pkg/engine/entity_feed_presence_index.go:80-98 | the last name ends the file |
| PresenceIndex.GuardAcceptsMarshalled | pkg/engine/entity_feed_presence_index.go:111-114 | the count guard never refuses a marshalled file below 2^33 bytes |
| PresenceIndex.MarshalledParses | pkg/engine/entity_feed_presence_index.go:80-148 | what marshalling writes below 2^33 bytes is a file that parsing accepts |
| PresenceIndex.EncodingUnique | pkg/engine/entity_feed_presence_index.go:80-148 | no bytes encode two lists |
| PresenceIndex.CanonicalIsNormalForm | pkg/engine/entity_feed_presence_index.go:80-148 | a canonical list is its own normal form, so it comes back as itself |
| PresenceIndex.NormalFormUnique | pkg/engine/entity_surgical_delta.go:117-133 | the normal form does not depend on order or repetition |
| PresenceIndex.IsSorted | pkg/engine/entity_feed_presence_index.go:144-146 | neighbours in order make distinct names strictly sorted |
| LegacyArray.RoundTripExactlyWhen | pkg/cache/legacy.go:85-230 | reading the printed form of a map without `]` in its keys, each value unquoted, quoted either way or in ANSI-C form with octal or hexadecimal escapes, returns the map if and only if no byte was printed with an escape the reader takes for a letter |
| LegacyArray.ArrayReadBack | pkg/cache/legacy.go:85-119 | what is stored for any printed array, in any order, repeated keys included |
| LegacyArray.DoubleRoundTrip | pkg/cache/legacy.go:130-162 | a double-quoted value is read back whole, whatever follows |
| LegacyArray.SingleRoundTrip | pkg/cache/legacy.go:163-171 | a single-quoted value without quotes is read back whole |
| LegacyArray.AnsiRoundTrip | pkg/cache/legacy.go:172-223 | an ANSI-C quoted value is read back byte by byte, named escapes as their letters |
| LegacyArray.OctalRoundTrip | pkg/cache/legacy.go:195-203 | three octal digits are one byte, whatever follows |
| LegacyArray.HexRoundTrip | pkg/cache/legacy.go:204-212 | two hexadecimal digits in either case are one byte, whatever follows |
| LegacyArray.BareRoundTrip | pkg/cache/legacy.go:225-229 | an unquoted word is read up to the next white space |
| LegacyArray.MalformedRejected | pkg/cache/legacy.go:85-119 | an entry without its bracket, closed key or equals sign, or with a value cut off, is an error |
| LegacyArray.BackslashInDouble | pkg/cache/legacy.go:137-155 | inside double quotes a backslash takes the special meaning off four bytes, makes control characters of n, r and t, and stays before all others |
| LegacyArray.ShortEscapes | pkg/cache/legacy.go:195-212 | an octal or hexadecimal escape may have fewer digits |
| LegacyArray.ShellSpaces | pkg/cache/legacy.go:322-324 | blanks, tabs, newlines and carriage returns are skipped and end an unquoted value; nothing else is or does |
| LegacyArray.DoubleCutOff | pkg/cache/legacy.go:130-162 | a double-quoted value without its closing quote is an error |
| LegacyArray.BellBecomesLetter | pkg/cache/legacy.go:213-216 | a bell printed by bash comes back as the letter a |
| LegacyArray.ReadDouble | pkg/cache/legacy.go:130-162 | the index loop reads what the double-quote grammar says and ends past the closing quote |
| LegacyArray.ReadAnsiC | pkg/cache/legacy.go:172-223 | the index loop reads what the ANSI-C grammar says and ends past the closing quote |
| LegacyArray.ParseShellValue | pkg/cache/legacy.go:121-230 | on any bytes it stays in bounds, does not move back, and returns the value its grammar says |
| LegacyArray.ParseAssocArray | pkg/cache/legacy.go:85-119 | terminates on any bytes with the map, or the error, of the array grammar |
| Sanitizer.SanitizeReader.Read | pkg/downloader/canonical.go:125-175 | one read takes a prefix of what is to come, fills the buffer or reaches the end, and reports EOF or the fault only when nothing is left |
| Sanitizer.ReaderDeliversTransform | pkg/downloader/canonical.go:125-175 | without a fault the reader's total output is the whole-file transformation |
| Sanitizer.ChunkIndependence | pkg/downloader/canonical.go:125-175 | for any positive buffer sizes the reads concatenate to the whole output, followed by EOF, after at most as many reads as bytes |
| Sanitizer.ReadInChunks | pkg/downloader/canonical.go:125-175 | a reader read with buffers of any positive sizes returns the whole-file transformation piece by piece, then EOF |
| Sanitizer.FaultCostsOpenLine | pkg/downloader/canonical.go:134-140 | a failing source costs its unfinished last line and nothing else |
| Sanitizer.StableExactlyWhen | pkg/downloader/canonical.go:147-168 | sanitizing again changes nothing if and only if the output does not begin with a byte order mark |
| Sanitizer.TwoMarks | pkg/downloader/canonical.go:147-150 | a file of two byte order marks is not a fixed point after one sanitizing |
| SanitizedText.SanitizedIs | pkg/downloader/canonical.go:125-175 | a sanitized file is, line by line, the fields of the file without its mark and carriage returns, one blank between them, without the lines that have no field, are 0.0.0.0 or end with /0 |
| SanitizedText.EveryFileIsSanitized | pkg/downloader/canonical.go:125-175 | every file has such lines and fields, so this is what every reader returns |
| GoText.CollapseIdempotent | pkg/downloader/canonical.go:153-160 | collapsing white space twice is collapsing it once |
| GoText.FieldsWoven | pkg/downloader/canonical.go:153 | the fields of a text are its runs without white space, with white space and nothing else before, between and after them |
| GoText.WovenIsFields | pkg/downloader/canonical.go:153 | there is only one way to split a text like that |
| GoText.LeadSpaceIsWhiteSpace | pkg/downloader/canonical.go:153 | white space is the encoding of a character with the Unicode property White_Space |
| GoText.TrailSpaceIsWhiteSpace | pkg/config/expand.go:259-268 | so it is at the end of a text |
| GoText.TrimSpaceIs | pkg/config/expand.go:259-268 | trimming takes white space off both ends, all of it and nothing else |
| GoText.ParsedNumbers | pkg/engine/entity_artifacts_write.go:358-382 | zeros in front of a number change nothing, and what is no number is refused |
| GoText.UpperCaseCodes | pkg/engine/entity_artifacts_write.go:334-357 | codes in file names are compared in upper case |
| Names.SortedKeys | pkg/config/expand.go:70-74 | the collected and sorted keys of a map are strictly increasing and complete |
| Names.IncreasingUnique | pkg/config/expand.go:70-74 | two increasing listings of the same set are the same list |

## Left out

- Network fetching, archives, git, process locks, metrics, logging, status strings and the web interface are not modelled.
- The catalog entries and provider labels that details copy are the same in every run that is compared.
- Country codes are taken as already trimmed and upper-cased, and feed names as non-empty; upper-casing of file names is that of ASCII.
- EntitySurgical.SurgicalKeepsConsistent: takes sidecars with one row an entity and none without addresses, as the daemon builds them; which feeds the details mention, lack an expected sidecar or have an unusable one is handed to the refresh.
- The final sorting and the facet and distribution tables of a detail stay as the builder's contents; a published detail is a function of them.
- Modification times, pending-file markers, public JSON and markdown payloads of the entities, indexes and the sitemap are not part of the stores compared.
- Walks with callbacks are modelled as lists of visits, and builders as values in maps, so aliasing between builders is not captured.
- Input and output errors and context cancellation inside an entity write are left to the publication model, where a plan fails as a whole before its lease or partway through its files.
- The wrap of the 64-bit sequence and generation counters is not modelled.
- Panics are modelled between locked sections only, and not between a finished rename and the section that records it.
- CachePersistence.WaitNilMeansSaved: says a later worker's snapshot may have replaced the one waited for, because numbering starts again with each worker.
- RangeTable.SortRows: `sort.Slice` is modelled as an insertion sort; rows equal in both bounds may end up in either order.
- RangeTable.SortMergeRanges: takes rows with lo <= hi and a non-zero ASN, which the loaders guarantee.
- Overlap, exclusion and filtering of range sets enter as set-level contracts; the library behind them, MMDB lookups and percentages are not modelled.
- The info note of a window variant, the static payload, and the text form of internal URLs are left out; URLs are kept parsed.
- `Dependents`, the reverse index of the graph, would only add an easy member.
- Text of error messages; which of several errors is reported first where map iteration decides it.
- EntityRepair.RepairSelected: takes the public files that exist as given; indexes and the home aggregate of a repair are public files too.
- FanOut.NoDeadlock: takes the job function as returning; whether it heeds the context is its own affair.
- SidecarBuild.Safety: models the consumer that visits sidecars; the second consumer, which stages them, differs only in what it does with a result.
- PresenceIndex.Load: starts with the file's bytes; a missing or irregular file is left to the file system.
- LegacyArray.RoundTripExactlyWhen: the printer writes keys unquoted, as the reader expects; the surrounding declare line has no printer.
- Sanitizer.SanitizeReader.Read: a failing source fails for good; a source that recovers after an error is not modelled.
