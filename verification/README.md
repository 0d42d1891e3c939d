# magpie-backend: a verified model of its stateful protocols

magpie-backend keeps a fleet of proxy routes for several workspaces. This project models the parts of it whose
correctness depends on state that many steps share, and proves what those steps keep over whole runs. Database tables
are maps and sets, a transaction is one atomic step, and code that changes things in place is a class or a method with
loops, proved against a specification function that the run theorems are about.

1. **Checker plans and their revision protocol.** Validation and resolution of tag rules (`CheckerSettings`,
   `RuleChanges`), compilation into a sparse snapshot (`Plans`, `SnapshotBuild`), the sharded copy-on-write merge
   (`ProxyPlans`), the projection into override rows (`ProjectionDelta`), the transactions (`CheckerStore`) and the
   loader (`CheckerLoader`), the steps as functions on tables (`CheckerRevision`), what each step keeps
   (`CheckerConvergence`), runs of many instances (`CheckerRuns`, `LegacyDeletion`, `DeletionRuns`), and what users see of
   them (`CheckerEffects`). The main theorems are `CheckerRuns.EveryLoadIsAFullRebuild` and
   `CheckerEffects.WritesTakeEffect`.
2. **Read-model invalidation.** The queue with its closed round (`ReadModelQueue`) and its fairness
   (`ReadModelRounds`), the retained batch and its retry window (`ReadModelBatch`), and their interleavings with writers
   and failures (`ReadModelRuns`, `ReadModelLate`).
3. **Alerts.** One evaluation (`AlertRules`), sustained stretches (`AlertSustain`), the tables and their steps
   (`Alerts`, `AlertStore`, `AlertTables`), what every step keeps (`AlertRuns`, `AlertSpacing`), the delivery outbox
   (`AlertOutbox`, `AlertClaims`), the link between the tables and one rule's history (`AlertHistory`), and what batches
   and changes leave behind (`AlertMessages`, `AlertChanges`).
4. **Exactly-once and fenced work.** The leased reputation queue (`ReputationQueue`, `ReputationRuns`), stream events
   with a replay floor (`SortKeys`, `StreamEvents`, `StreamLedger`, `StreamRuns`, `StreamAcceptance`), last-writer-wins
   evidence (`LatestEvidence`), and daily counters (`DailyChecks`, `DailyTables`, `DailyRuns`, `DailyUpgrades`).
5. **Fast form against simple form.** The blacklist range index (`AddressBits`, `Blacklist`) and the rotator's cursor
   (`Rotator`). Prefixes are those of section 3.1 of RFC 4632 and section 2.3 of RFC 4291, mapped addresses those of
   section 2.5.5.2 of RFC 4291.

`Options`, `Sorting`, `Ids` and `Sums` hold shared helpers. `dafny verify dfyconfig.toml` checks everything.

## What the proofs found

- **Deleting a tag of an earlier-format profile can leave stale plans.** Such a profile is read through a TCP
  conversion, but deleting a tag stores its raw rules in the current format and records only the routes that hold the
  tag. The conversion then ends for all routes, and an instance that loads incrementally keeps old keys for the others.
  `DeletionRuns.DeletionIsSafeExactly` gives the exact condition, `DeletionRuns.UnsafeProfile` an example, and
  `DeletionRuns.DecideSafeDeletion` a check that could be made before a deletion; the source makes none. The run
  theorems of group 1 hold for runs whose tag deletions meet the condition; all other steps are unrestricted.
- **The idle report can be early.** `readModelProxyWorkPending` looks at the dirty set, the round and the retained batch.
  Popped ids whose owners are still being discovered are in none of them. The projection is up to date when all three
  are empty and no discovery is under way, and only then does the report promise it
  (`ReadModelRuns.IdleExactlyWithEmptyHand`). The one caller in production, `drainReadModelRefreshes`, asks right after
  its own flush and in the same goroutine (internal/database/read_model_indexes.go:316-341), when no discovery is under
  way, so there the report is right.
- **A statement that commits after its retry can lose an invalidation.** The worker retries a prefix when it sees an
  error, whatever became of the statement. A statement that read its rows, was given up on and commits only after the
  retry has committed and the batch has moved on overwrites newer rows with older ones, and nothing is queued any more
  (`ReadModelLate.LateCommitLoses`; whether the database lets such a statement live that long is not part of this
  model). A run loses no invalidation exactly if, at each late commit, every pair that was queued since the statement
  read it is still waiting, popped or in the uncommitted suffix (`ReadModelRuns.LosesOnlyByLateCommits`); until a
  retry is acknowledged a late commit always meets this (`ReadModelRuns.InTimeUntilRetried`). The other
  run theorems of `ReadModelRuns` are for runs whose late commits come in time in this sense; all other steps are
  unrestricted.
- **Some malformed stream ids can be accepted twice.** The SQL that gives old ledger rows a key checks digits and length
  but not the 64-bit range, so a row whose id has no key in Go may get one, be retired below a floor, and leave nothing to
  refuse a replay. Exactly the ids described by `StreamRuns.ExactlyReplayable` are affected; no valid id is.
- **A backfill on the day the counters start loses that day's earlier checks.** A backfill counts past days only, marks
  the route, and marked routes are never backfilled again. If counters are introduced in the middle of a day and the
  route is backfilled on that day, what the day's history held before is missing from total and week on every later day
  (`DailyUpgrades.SameDayBackfillLoses`, `DailyUpgrades.ConcreteLoss`). For every upgraded installation and every run the
  counts are the naive ones exactly if each day with history the counters did not know was filled by a backfill of its
  route on a later day that found the day's whole history (`DailyUpgrades.DashboardCountsAreNaiveExactly`); while the
  history is kept until the backfill, only the day of the backfill matters (`DailyUpgrades.BackfillDayDecides`). The
  counts never exceed the naive ones, and `DailyRuns.TotalShortfall` and `DailyRuns.WeekShortfall` give the difference.

## Assumptions

- A config key is an injective function of protocol, transport, timeout, retries, judges and headers; the empty key
  means a disabled protocol; `Plans.KeyDeterminesSettings` spells out what that gives. Headers are constant, and the
  judges of a workspace change only together with a full revision. The judge list is kept in the order of its signature.
- A tag rule list that reaches the rule comparison has distinct tags. `EditAllowed` lets a settings edit store a
  valid profile, or the bare defaults of a workspace that never stored one, which the source does not validate.
- Claim tokens are unique and a lease lasts longer than zero. One clock never goes back, which
  the results about daily counters do not need. Each transaction is atomic.
- The pair budget is constant while a batch drains. Statistic ids are unique, and one statistic carries at most one piece
  of evidence per workspace and configuration. Routes have positive ids.
- Strings compare byte by byte, in the database as in Go.

## Model

| member | source | states |
|---|---|---|
| `CheckerSettings.ProtocolMask` | internal/domain/checker_settings.go:130-149 | A list of protocol names is accepted exactly when every name is known and none is listed twice; the mask then holds exactly the listed protocols, and a rejected list yields the empty mask. |
| `CheckerSettings.ResolveCheckerSettings` | internal/domain/checker_settings.go:153-186 | The backwards loop gives the plan that the rules say read from the front: a protocol is checked if and only if the first rule the route holds that replaces or lists it lists it and is no remove rule, or without such a rule if the defaults list it; transport, timeout and retries are each those of the first rule held that sets it and is no remove rule, or else the defaults'. |
| `CheckerSettings.ResolveAsRuled` | internal/domain/checker_settings.go:153-186 | The recursive reading that all other results use says the same as that reading from the front, for every profile, well formed or not, and every tag set. |
| `CheckerSettings.AsRuledIsUnique` | internal/domain/checker_settings.go:153-186 | The reading from the front leaves nothing open: it determines the whole plan. |
| `CheckerSettings.ResolveUsesRuleTags` | internal/domain/checker_settings.go:156-160 | Two tag sets that agree on the tags that carry a rule resolve alike, from any rule on. |
| `CheckerSettings.NoTagsApply` | internal/domain/checker_settings.go:154-160 | A route that holds none of the rule tags resolves to the defaults. |
| `CheckerSettings.ReachableStep` | internal/domain/checker_settings.go:98-115 | If the state set is exactly what tag subsets reach below a rule, then keeping every state and adding its image under the rule is exactly what they reach after it; distinct tags make the choice independent. |
| `CheckerSettings.ExtendStates` | internal/domain/checker_settings.go:98-115 | The loop over the state map computes that union. |
| `CheckerSettings.AtMostFortyEight` | internal/domain/checker_settings.go:66-72 | No set of states with known transports has more than 48 members. |
| `CheckerSettings.ValidateCheckerSettings` | internal/domain/checker_settings.go:52-123 | Nil is accepted; a configuration is accepted if and only if none of the seven faults is there: zero timeouts, unknown transports, unknown or repeated protocols, zero or repeated tags, unknown modes, remove rules with fields, and a tag set under which the rules say SOCKS on a transport other than TCP; a returned error names a fault that is there, and the SOCKS error is returned exactly for well-formed configurations. |
| `CheckerSettings.ValidIsFaultless` | internal/domain/checker_settings.go:52-123 | The validity that the run theorems assume of stored profiles is the absence of these faults. |
| `CheckerSettings.DefaultCheckerSettings` | internal/domain/checker_settings.go:17-38 | The settings in force: a profile of the earlier format that is invalid as it stands, but valid with every transport read as TCP, is replaced by that conversion, and any other is returned unchanged. Both in terms of the faults of the two readings. |
| `CheckerSettings.TcpSelection` | internal/domain/checker_settings.go:23-32 | The conversion changes nothing of any resolved plan but the transport, which becomes TCP. |
| `CheckerSettings.TcpConversionRepairs` | internal/domain/checker_settings.go:23-35 | The converted profile is valid exactly when it is well formed, so the conversion repairs every well-formed profile and only a structural fault survives it. |
| `CheckerSettings.EffectiveRules` | internal/domain/checker_settings.go:22-37 | The conversion keeps the set of rule tags and their distinctness, which is what tag bookkeeping relies on. |
| `CheckerSettings.KeptRules` | internal/database/database_proxy_tag_handler.go:161-166 | The filtering loop keeps the rules of the other tags, in order. |
| `CheckerSettings.WithoutTagKeeps` | internal/database/database_proxy_tag_handler.go:161-170 | A rule is kept exactly when it was there and belongs to another tag; distinct tags stay distinct. |
| `CheckerSettings.WithoutTagShorter` | internal/database/database_proxy_tag_handler.go:167-169 | Comparing lengths decides whether a rule was dropped: without a rule for the tag the list is unchanged, with one it is shorter. |
| `CheckerSettings.RemoveRulePlan` | internal/database/database_proxy_tag_handler.go:160-173 | Deleting a tag's rule changes no raw plan of a route that does not hold the tag. |
| `RuleChanges.ChangedCheckerRuleTags` | internal/database/database_user_handler.go:773-794 | For rule lists with distinct tags, the returned ids are exactly the tags whose rule does not stand at the same position with the same content in both lists. |
| `RuleChanges.UntouchedRouteKeepsPlan` | internal/database/database_user_handler.go:773-794 | With equal defaults, a route that holds none of those tags resolves to the same plan under both lists, whatever was reordered, inserted or deleted: the impact set is complete. |
| `Plans.SelectJudges` | internal/checkerconfig/cache.go:131-136 | The judges of a protocol are those of its scheme, sorted by id. |
| `Plans.CompilePlan` | internal/checkerconfig/cache.go:111-158 | A disabled protocol gets no key, and an enabled one the key of its own settings with exactly the judges it asks for, in id order: HTTPS judges for HTTPS routes and for QUIC and HTTP/3, for SOCKS as the workspace says, and HTTP judges otherwise. |
| `SnapshotBuild.CompileOnce` | internal/checkerconfig/cache.go:110-158 | The memo never changes what is compiled: every remembered plan is the plan of its settings. |
| `SnapshotBuild.GroupAssignments` | internal/checkerconfig/cache.go:107-109 | The list comes back sorted by route, with every assignment as often as before. |
| `SnapshotBuild.ReadGroup` | internal/checkerconfig/cache.go:180-190 | The cursor stops at the next route, and the tags read are those the workspace assigns to this route and has rules for. |
| `SnapshotBuild.BuiltStep` | internal/checkerconfig/cache.go:180-198 | Storing one group's plan if its keys differ from the default extends the exactness of the snapshot from all routes below the group to all routes below the next one, including the routes without assignments in between. |
| `SnapshotBuild.PlanIgnoresOtherTags` | internal/checkerconfig/cache.go:101-104 | Dropping the tags without rules changes no plan. |
| `SnapshotBuild.TagsOfAnyOrder` | internal/checkerconfig/cache.go:107-109 | A route's tag set does not depend on the order in which its assignments are listed. |
| `SnapshotBuild.Build` | internal/checkerconfig/cache.go:98-200 | For assignments in any order every route shows the keys of resolving its own tag set directly, only routes whose keys differ from the default are stored, and each stored plan is that route's own. |
| `SnapshotBuild.ExactSnapshotsAgree` | internal/checkerconfig/cache.go:98-200 | Two exact snapshots of the same tag sets have the same default and the same entries, so exactness determines the snapshot. |
| `ProxyPlans.ProxyPlans.Get` | internal/checkerconfig/proxy_plans.go:12-17 | Lookup by shard returns the route's entry, or nothing. |
| `ProxyPlans.ProxyPlans.Len` | internal/checkerconfig/proxy_plans.go:18-23 | The counter is the number of entries. |
| `ProxyPlans.ProxyPlans.Range` | internal/checkerconfig/proxy_plans.go:24-33 | Visiting shard by shard visits every entry. |
| `ProxyPlans.ProxyPlans.Set` | internal/checkerconfig/proxy_plans.go:36-45 | One entry is added or replaced, nothing else changes, and the counter stays the number of entries. |
| `ProxyPlans.ProxyPlans.Copy` | internal/checkerconfig/proxy_plans.go:64-67 | A merge starts with the previous entries in the previous shard objects; nothing is cloned yet. |
| `ProxyPlans.CloneShard` | internal/checkerconfig/proxy_plans.go:69-78 | A shared shard is replaced by a new object with the same routes; the other shards are untouched. |
| `ProxyPlans.Erase` | internal/checkerconfig/proxy_plans.go:79-81 | The entry goes and the counter still equals the number of entries. |
| `ProxyPlans.Put` | internal/checkerconfig/proxy_plans.go:82-87 | The entry is written and the counter grows only for a new one. |
| `ProxyPlans.MergeAdvances` | internal/checkerconfig/proxy_plans.go:58-88 | Distinct ids can be merged one at a time: a step that settles one id leaves all earlier ids and all unlisted routes as a merge of the longer prefix requires. |
| `ProxyPlans.MergeProxyPlans` | internal/checkerconfig/proxy_plans.go:55-93 | For distinct ids the result shows the patch on the listed routes (keeping the previous plan where the keys agree) and the previous entries elsewhere, with an exact counter; nothing that existed before the call is modified, so a published snapshot keeps its contents. The previous object itself is returned if and only if the merge changes nothing. |
| `ProjectionDelta.NeededRows` | internal/database/checker_settings.go:211-231 | For each listed route, the protocols whose compiled key differs from the default; for every other route none. |
| `ProjectionDelta.CompareRow` | internal/database/checker_settings.go:250-259 | One stored row marks its route exactly when the plan does not ask for that row as it stands, and crosses its protocol off what the route still needs. |
| `ProjectionDelta.ComparedMeans` | internal/database/checker_settings.go:243-276 | Once all rows of a route were seen, it is marked or still needs a row if and only if its stored rows are not exactly those of its plan. |
| `ProjectionDelta.CheckerProjectionDelta` | internal/database/checker_settings.go:210-282 | The ids returned are exactly the routes in scope whose stored rows differ from their plan: the affected routes in an incremental refresh, every stored row and every sparse plan in a cold one. |
| `ProjectionDelta.RewriteRows` | internal/database/checker_settings.go:125-146 | Deleting and recreating in chunks leaves, for the listed routes, one row for each protocol whose key differs from the default, and every other row as it was. |
| `CheckerStore.ChangedProxyTagIDs` | internal/database/database_proxy_tag_handler.go:415-430 | Toggling a map returns the symmetric difference of the two lists. |
| `CheckerStore.RecordProxies` | internal/database/checker_settings.go:375-381 | Chunked upserts leave one change row at the new revision, not deleted, for each listed route that is owned, and keep the other rows. |
| `CheckerStore.RecordRuleChanges` | internal/database/checker_settings.go:390-397 | Exactly the routes that hold one of the tags get a change row at the revision. |
| `CheckerStore.SettingsImpact` | internal/database/database_user_handler.go:259-267 | A change of the effective defaults, of the SOCKS scheme or a judge list asks for a full refresh; otherwise exactly the holders of changed rule tags are recorded. |
| `CheckerStore.Store.UpdateWorkspaceSettings` | internal/database/database_user_handler.go:239-272 | The new revision, the watermark or the change rows, and the stored configuration, and nothing of the projection. |
| `CheckerStore.Store.MarkCheckerAssignmentsDirty` | internal/database/checker_settings.go:357-386 | Only tags used by rules raise the revision, set dirty and record the owned routes; the returned flag says whether that happened. |
| `CheckerStore.Store.ReplaceProxyTags` | internal/database/database_proxy_tag_handler.go:183-215 | The route holds the new tags and the tags that changed are announced; a route that is not managed changes nothing. |
| `CheckerStore.Store.AddProxyTagsToProxies` | internal/database/database_proxy_tag_handler.go:228-253 | All listed routes must be managed, then each keeps its tags and gains the new ones. |
| `CheckerStore.Store.ApplyScrapeSourceTags` | internal/database/database_scrape_source_tag_handler.go:123-177 | The loop over batches tags exactly the managed routes among those found, and only if the source still has the fetch mode; then all tags and all found routes are announced, managed or not, and the flag says whether the revision rose. |
| `CheckerStore.Store.DeleteProxyTag` | internal/database/database_proxy_tag_handler.go:123-176 | The tag leaves all routes; if it had a rule its holders are recorded first and the raw profile is stored without the rule, in the current format. |
| `CheckerStore.Store.DeleteManagedRoutes` | internal/database/checker_settings.go:401-434 | One statement removes ownership, assignments and overrides, and leaves tombstones at a new revision for exactly the removed routes that had an override or a change row. |
| `CheckerStore.Store.PruneDeletedCheckerRoutes` | internal/database/checker_settings.go:438-471 | Among the candidates, tombstones of owned routes are restored, settled ones of routes that are gone are removed, and the full-refresh watermark passes every removed row. |
| `CheckerLoader.LoadAssignments` | internal/database/checker_settings.go:172-206 | The rows loaded give each route in scope its tags that have rules, and no other route any. |
| `CheckerLoader.BuiltMatches` | internal/database/checker_settings.go:83-92 | A build over the assignments in scope stores exactly the sparse plans of the owned routes in scope. |
| `CheckerLoader.MergeMatches` | internal/checkerconfig/proxy_plans.go:50-54 | The entries after a merge are those of the snapshot that the load specification asks for. |
| `CheckerLoader.Decide` | internal/database/checker_settings.go:62-76 | The early exit and the choice between an incremental and a cold load are made as the protocol's specification makes them. |
| `CheckerLoader.Inspect` | internal/database/checker_settings.go:77-118 | Compilation and comparison find the snapshot, the changed routes, whether the default changed, and whether an unannounced change must be announced. |
| `CheckerLoader.Settle` | internal/database/checker_settings.go:102-146 | Numbering the snapshot and rewriting rows brings row, watermark, generation and overrides to the state the specification gives. |
| `CheckerLoader.LoadCheckerWorkspace` | internal/database/checker_settings.go:26-169 | The transaction as code, over mutable tables and shared snapshots, refines one step of the protocol: resulting tables and returned snapshot are those of the specification about which the run theorems are proved. Without the workspace row, and only then, there is no snapshot. |
| `CheckerLoader.Instance.Publish` | internal/checkerconfig/cache.go:235-241 | A workspace that is gone is dropped; otherwise a snapshot replaces the cached one unless the cached one has a higher generation. |
| `CheckerConvergence.WriterKeepsConsistent` | internal/database/checker_settings.go:64-76 | Any writer that announces every route whose keys or rows it changes keeps the projection exact outside the routes changed since. |
| `CheckerConvergence.WriterKeepsTracked` | internal/database/checker_settings.go:64-76 | Such a writer keeps every cached snapshot at or above the watermark exact outside the routes with newer change rows. |
| `CheckerConvergence.UpdateSettingsStep` | internal/database/database_user_handler.go:239-272 | A settings edit is such a writer. |
| `CheckerConvergence.ReplaceTagsStep` | internal/database/database_proxy_tag_handler.go:183-215 | Replacing the tags of a route is such a writer. |
| `CheckerConvergence.AddTagsStep` | internal/database/database_proxy_tag_handler.go:228-253 | Adding tags to routes is such a writer. |
| `CheckerConvergence.ApplySourceTagsStep` | internal/database/database_scrape_source_tag_handler.go:123-177 | Tagging what a scrape source found is such a writer, also where the announced routes are not managed or the announced tags were not added. |
| `CheckerConvergence.DeleteTagStep` | internal/database/database_proxy_tag_handler.go:123-176 | Deleting a tag is such a writer when the deletion is safe (see DeletionRuns.DeletionIsSafeExactly). |
| `CheckerConvergence.DeleteRoutesStep` | internal/database/checker_settings.go:401-434 | Deleting routes is such a writer, although routes without override and change row are not recorded. |
| `CheckerConvergence.UnrecordedShowsDefault` | internal/database/checker_settings.go:415-420 | While the projection is usable, a route without override and change row compiles to the default keys, which is why it needs no tombstone. |
| `CheckerConvergence.PruneStep` | internal/database/checker_settings.go:438-471 | Pruning is such a writer: the watermark passes every tombstone it removes. |
| `CheckerConvergence.LoadedKeys` | internal/database/checker_settings.go:68-95 | From any tracked snapshot, recompiling only the affected routes and merging gives every route the keys of a full rebuild. |
| `CheckerConvergence.LoadedRowsExact` | internal/database/checker_settings.go:96-146 | Rewriting only the changed routes makes the override rows of every route exact. |
| `CheckerConvergence.LoadSettles` | internal/database/checker_settings.go:64-146 | Every load leaves nothing pending: projected revision equals revision, snapshot and tables both give every route the keys of a full rebuild, and the stored default is the compiled one. |
| `CheckerConvergence.LoadMonotone` | internal/database/checker_settings.go:102-121 | A load never lowers a revision, the watermark or the generation, and clearing dirty raises the generation. |
| `CheckerConvergence.LoadKeepsTracked` | internal/database/checker_settings.go:102-108 | A load by one instance keeps the snapshots of all others tracked; an unannounced change it finds moves the watermark past them. |
| `CheckerRuns.RunKeepsSound` | internal/database/checker_settings.go:64-146 | The invariant relating every instance's snapshot revision, the projected revision, the watermark and the change rows is kept by every step and so by every run of edits, tag changes, tags of scrape sources, imports, deletions, prunings, loads and publications. |
| `CheckerRuns.EveryLoadIsAFullRebuild` | internal/database/checker_settings.go:64-96 | In every reachable state and for every instance, whatever it has cached, the next load shows every route the keys of a full rebuild and of a load without a cache, and leaves exact rows. |
| `CheckerRuns.CleanTablesAreCompiled` | internal/database/checker_settings.go:284-295 | In every reachable state that is not dirty and whose generation is above 0, projected revision equals revision, COALESCE(override, default) is the compiled key of every route and protocol, and an override row exists exactly where the compiled key differs from the default. A workspace that was never compiled has generation 0, and the source reads its health through a branch of its own. |
| `CheckerRuns.CurrentGenerationIsExact` | internal/database/checker_settings.go:62-67 | In every reachable state that is not dirty, a cached snapshot of the current generation is a full rebuild. |
| `CheckerRuns.RevisionsNeverGoBack` | internal/checkerconfig/cache.go:239-241 | Refreshes may finish in any order, and no step replaces a cached snapshot by one of an older revision. |
| `CheckerRuns.SettlingIsPublished` | internal/checkerconfig/cache.go:239-241 | A load that clears dirty outnumbers every cached snapshot, so every instance accepts it. |
| `CheckerEffects.LoadShowsRules` | internal/database/checker_settings.go:64-96 | In every reachable state and for every instance, whatever it has cached, the next load shows every route what the rules in force say about its tags, read from the front, compiled with exactly the judges each protocol asks for. |
| `CheckerEffects.WritesTakeEffect` | internal/database/checker_settings.go:64-96 | In every reachable state, whatever is written next, the load after it shows every route what was asked for: the tags it was given, added or left with, under the profile of the edit or the stored one without the deleted rule, for the judges and policy of the edit; and it is owned exactly if it was imported or left. |
| `CheckerEffects.LoadTwiceIsOnce` | internal/database/checker_settings.go:60-63 | A load repeated without a write in between returns the snapshot of the first and changes nothing. |
| `CheckerEffects.LoadWritesOnlyChanges` | internal/database/checker_settings.go:97-146 | In every reachable state a load writes only if work is pending, nothing was ever compiled, default keys or rows change, or the cached snapshot has another base. |
| `CheckerEffects.LoadIsPublished` | internal/checkerconfig/cache.go:239-241 | In every reachable state the instance that loads accepts what it loaded. |
| `CheckerEffects.EditTells` | internal/database/database_user_handler.go:239-272 | An edit asks for a full refresh if and only if it changes the defaults in force or the SOCKS scheme or brings judges; otherwise it records exactly the routes that hold a rule that does not stand unchanged at its place. |
| `CheckerEffects.TaggingTells` | internal/database/checker_settings.go:357-386 | Tagging changes the revision if and only if a rule in force uses one of the tags and there are routes, and then records exactly the owned ones. |
| `CheckerEffects.DeletionTells` | internal/database/checker_settings.go:401-434 | Deleting routes leaves tombstones for exactly the owned ones with an override or a change row, and raises the revision only for them. |
| `CheckerEffects.PruningLeaves` | internal/database/checker_settings.go:438-471 | Row by row: what becomes of a candidate tombstone of an owned route, of a settled and of an unsettled one of a route that is gone, and of every other row; the watermark rises only to the revision of a row that was dropped. |
| `LegacyDeletion.LocalDeletionKeepsKeys` | internal/database/database_proxy_tag_handler.go:156-173 | When the profile is not read through its TCP conversion, or no tag set without the tag enables a protocol off TCP, deleting a tag's rule keeps the keys of every route that never held it. |
| `LegacyDeletion.DeletionIsLocalExactly` | internal/database/database_proxy_tag_handler.go:156-173 | That condition is exact: when it fails, some tag set without the deleted tag changes keys, under every base. |
| `DeletionRuns.UnsafeDeletionGoesStale` | internal/database/database_proxy_tag_handler.go:137-173 | For every configuration and tag outside the condition there is a reachable state in which the deletion makes the next incremental load miss a route. |
| `DeletionRuns.SafeDeletionStaysExact` | internal/database/database_proxy_tag_handler.go:123-176 | Inside the condition, from every reachable state, every instance's next load after the deletion is a full rebuild. |
| `DeletionRuns.DeletionIsSafeExactly` | internal/database/database_proxy_tag_handler.go:123-176 | The two together: deleting a tag is safe from all reachable states with a configuration if and only if the tag has no rule, or the defaults are not on TCP, or the deletion is local. |
| `DeletionRuns.DecideSafeDeletion` | internal/database/database_proxy_tag_handler.go:137-173 | That condition can be decided from the stored profile alone, before the deletion: two validations and the states that the remaining rules reach. |
| `DeletionRuns.UnsafeProfile` | internal/database/database_proxy_tag_handler.go:156-173 | A concrete profile of the earlier format, two rules long, whose second rule cannot be deleted safely. |
| `ReadModelQueue.Search` | internal/database/read_model_indexes.go:276-277 | The search finds the id exactly when the sorted round holds it. |
| `ReadModelQueue.RefreshQueue.QueueReadModelRefresh` | internal/database/read_model_indexes.go:265-285 | Nonzero ids that the closed round still holds stay there, all others enter the dirty set; nothing leaves. |
| `ReadModelQueue.RefreshQueue.PopDirty` | internal/database/read_model_indexes.go:455-486 | A pop takes the smallest ids of the round, as many as the limit allows; only without a round does it close the dirty set into one, sorted. |
| `ReadModelQueue.RefreshQueue.RequeueDirty` | internal/database/read_model_indexes.go:488-500 | After a failed owner discovery every nonzero id is back in the dirty set. |
| `ReadModelQueue.RefreshQueue.WorkPending` | internal/database/read_model_batches.go:73-77 | True exactly when the dirty set, the round or a retained batch is there. |
| `ReadModelRounds.NobodyOvertakesTwice` | internal/database/read_model_indexes.go:455-500 | Over every sequence of queue calls, failures and pops, while an id waits no other one is popped more than twice, however often it is queued again, and not more than once if the id is in the closed round. |
| `ReadModelRounds.WaitsInOnePlace` | internal/database/read_model_indexes.go:265-285 | In every run an id waits only if it was queued, and an id of the closed round is never dirty or in the worker's hand as well. |
| `ReadModelRuns.RunKeepsSafe` | internal/database/read_model_indexes.go:343-453 | Under any interleaving of writes, ownership changes, queue calls, pops, failed discoveries, failed, lost, abandoned or acknowledged statements, late commits in time and releases, stale pairs stay accounted for and running statements cover what they will settle. |
| `ReadModelRuns.NoInvalidationIsLost` | internal/database/read_model_indexes.go:265-285 | In every run whose late commits come in time, an owned pair whose projection is older than its last queued write has its route in the dirty set, in the round, in the worker's hand, or itself in the uncommitted suffix of the retained batch. |
| `ReadModelRuns.LosesOnlyByLateCommits` | internal/database/read_model_indexes.go:392-411 | A run keeps every stale pair accounted for at every moment if and only if each of its late commits comes in time; so commits that are acknowledged or only lost their response never lose one. |
| `ReadModelRuns.InTimeUntilRetried` | internal/database/read_model_batches.go:36-37 | In every run, a statement the worker gave up on comes in time if it commits before the worker next has a commit acknowledged, whatever happens in between: a failed statement never advances the cursor, and the batch is not released. |
| `ReadModelLate.LateCommitLoses` | internal/database/read_model_indexes.go:392-411 | For every pair there is a run in which a statement that commits after its retry leaves the projection older than the last queued write, with nothing pending and no discovery under way. |
| `ReadModelRuns.AcknowledgedLosesNothing` | internal/database/read_model_indexes.go:412-418 | Moving the cursor past a committed prefix leaves no stale pair behind: what the statement read too early is queued again. |
| `ReadModelRuns.IdleIsUpToDate` | internal/database/read_model_batches.go:73-77 | Without dirty ids, round and batch, and with no popped ids in owner discovery, no owned pair is stale, in every run whose late commits come in time. |
| `ReadModelRuns.HandHidesWork` | internal/database/read_model_batches.go:73-77 | The last condition is needed: for any nonempty set of popped ids there is a run, with no late commit out of time, in which the report says idle while a projection is stale. |
| `ReadModelRuns.IdleExactlyWithEmptyHand` | internal/database/read_model_batches.go:73-77 | For every set of popped ids in owner discovery: an idle report promises an up-to-date projection in all runs whose late commits come in time if and only if the set is empty. |
| `ReadModelBatch.Window.Deadline` | internal/database/read_model_projection_window.go:22-25 | The limit becomes half the attempted width, at least one pair, and the fast commits start over. |
| `ReadModelBatch.Window.Committed` | internal/database/read_model_projection_window.go:31-57 | The window after a commit is that of the learning rule that the batch invariants are proved about. |
| `ReadModelBatch.Batch.End` | internal/database/read_model_batches.go:38-44 | The end of the next statement, inside the pairs, the learned limit and the retry interval. |
| `ReadModelBatch.Batch.Failed` | internal/database/read_model_batches.go:46-58 | Only a child deadline that the operation reports itself, on the prefix at the cursor and wider than one pair, narrows the retry; any other failure keeps width and cursor. |
| `ReadModelBatch.Batch.Commit` | internal/database/read_model_batches.go:60-65 | The cursor moves to the end; a retry interval is forgotten only when the cursor has passed all of it, and only then may the window learn. |
| `ReadModelBatch.PrefixPasses` | internal/database/read_model_batches.go:38-44 | The next statement always moves past the cursor, within the budget and the pairs left. |
| `ReadModelBatch.DeadlineHalves` | internal/database/read_model_batches.go:46-58 | A deadline at a cursor at least halves the next statement there and keeps the end of the interval that timed out. |
| `ReadModelBatch.FailureKeepsSteady` | internal/database/read_model_batches.go:46-58 | After a failure the learned limit is unset or below the budget, and a retry interval lies ahead of the cursor. |
| `ReadModelBatch.CommitKeepsSteady` | internal/database/read_model_projection_window.go:31-57 | The same after a commit, whatever time it took, with the cursor at the end of its prefix. |
| `ReadModelBatch.FailureNarrowsExactly` | internal/database/read_model_batches.go:45-58 | A failure narrows the next statement if and only if its own deadline passed, not the worker's, the operation reports it, and there is more than one pair; then to half, and else the same statement is repeated. |
| `ReadModelBatch.CommitMovesLimit` | internal/database/read_model_projection_window.go:31-57 | A full statement narrows the window only if it took more than half of its timeout, to half of what it did, and widens it exactly as the second in a row that took at most a quarter, to twice as much within the budget. |
| `ReadModelBatch.WindowRecovers` | internal/database/read_model_projection_window.go:31-57 | From any width, 2 * (floor(log2 budget) + 1) fast full statements in a row bring the window back to the whole budget. |
| `ReadModelBatch.IntervalStaysNarrow` | internal/database/read_model_batches.go:28-44 | Until a timed-out interval is wholly committed, no statement reaches past it or exceeds the width learned at its deadline. |
| `ReadModelBatch.Log2Floor` | internal/database/read_model_projection_window.go:5-9 | The logarithm in the bound is the floor of the binary one. |
| `ReadModelBatch.AttemptSpends` | internal/database/read_model_batches.go:36-65 | Every attempt, committed or timed out, spends at least one unit of a potential made of the pairs left and the width of the next statement. |
| `ReadModelBatch.BatchDrains` | internal/database/read_model_batches.go:36-65 | If statements of one pair succeed, a batch of n pairs drains in at most n * (floor(log2 budget) + 1) attempts. |
| `AlertRules.Evaluate` | internal/database/alert_transitions.go:156-199 | The branches over gap, unknown value, breach and recovery compute the evaluation that the sustained-run theorems are proved about. |
| `AlertSustain.ClockSustained` | internal/database/alert_transitions.go:163-199 | After every evaluation a running breach or recovery clock is the time of a logged evaluation since which every value was of that kind and no gap exceeded 90 seconds. |
| `AlertSustain.EvaluationKeepsSpacing` | internal/database/alert_transitions.go:163-199 | From any earlier opening at least a sustained recovery and a sustained breach lie before the next one. |
| `AlertSustain.RunKeepsTracked` | internal/database/alert_transitions.go:156-199 | The clocks keep pointing into the log, and openings stay far apart, over every sequence of evaluations. |
| `AlertSustain.SustainedBothWays` | internal/database/alert_transitions.go:176-196 | In every run an incident opens if and only if none is open and the evaluation completes at least three breaching ones, each at most 90 seconds after the one before and two minutes or more from first to last, and closes if and only if one is open and the mirrored healthy ones are completed; at that evaluation's value. |
| `AlertSustain.RunShowsLast` | internal/database/alert_transitions.go:156-199 | In every run the rule shows the time, the value and the status of its last evaluation. |
| `AlertSustain.OpeningsFarApart` | internal/database/alert_transitions.go:176-196 | Any two openings under one revision are more than four minutes apart. |
| `AlertHistory.FollowsHistory` | internal/database/alert_transitions.go:137-167 | While a rule keeps its revision, what the tables hold of it after any run is what its own evaluations alone make of it: no other step interferes. |
| `AlertHistory.IncidentsFollowSustainedRuns` | internal/database/alert_transitions.go:156-199 | In every run of all steps after a rule was saved, a batch opens an incident of it if and only if it measured the rule as it stands, none is open and the measurement completes a sustained breach, and closes the open one if and only if it completes a sustained recovery, each at the measured value. |
| `AlertSpacing.IncidentsOpenFarApart` | internal/database/alert_transitions.go:176-196 | In every reachable state of the tables, two incidents of one rule revision opened more than four minutes apart. |
| `AlertStore.JudgeRules` | internal/database/alert_transitions.go:137-200 | The first pass classifies every rule of the batch and collects, in id order, those that open, close, or lost their rotator. |
| `AlertStore.CloseAlertForConfiguration` | internal/database/alerts.go:175-182 | The named incident closes if it is open, and all waiting deliveries of the rule's incidents are canceled and lose their token. |
| `AlertStore.CloseRules` | internal/database/alert_transitions.go:146-155 | Closing one rule after the other comes to the same as closing all at once. |
| `AlertStore.OpenIncidents` | internal/database/alert_transitions.go:202-211 | Inserted incidents take consecutive ids, and each rule names its own. |
| `AlertStore.RecoverIncidents` | internal/database/alert_transitions.go:212-242 | The consistency checks pass if and only if every closing rule names an open incident of its own revision; then exactly those incidents close. |
| `AlertStore.RecipientsOf` | internal/database/alert_transitions.go:368-374 | Each enabled destination of the rule once, in the rule's order. |
| `AlertStore.QueueAlertTransitions` | internal/database/alert_transitions.go:312-380 | One pending message per transition and recipient, in order. |
| `AlertTables.Tables.ApplyAlertObservations` | internal/database/alert_transitions.go:115-248 | In every safe state the transaction as code has exactly the effect of the specified step, and neither consistency error can occur. |
| `AlertTables.Tables.RecordAlertEvaluationAttempts` | internal/database/alert_transitions.go:51-111 | A batch starts exactly when some of its rules is due and no live enabled rule has an attempt as late; then the first due rule is marked and nothing else changes. In terms of the rules: exactly when every live enabled rule was last attempted before, and one of the batch is live, enabled and unchanged. |
| `AlertTables.Tables.SaveAlertRule` | internal/database/alerts.go:143-170 | An edit closes and cancels what the old revision left and starts the next revision afresh; a deleted rule is not found. |
| `AlertTables.Tables.DeleteAlertRule` | internal/database/alerts.go:184-199 | The rule goes with its open incident closed and its waiting deliveries canceled. |
| `AlertTables.Tables.DeleteRotatingProxy` | internal/database/database_rotating_proxy_handler.go:301-312 | Every live rule that measures the rotator is disabled under a new revision with its incident closed. |
| `AlertTables.Tables.ChangeAlertDestination` | internal/database/alerts.go:232-283 | Saving or deleting a known destination first cancels all that waits for it. |
| `AlertTables.Tables.ClaimAlertDeliveries` | internal/database/alert_deliveries.go:16-57 | A call leaves every delivery in flight that was attempted within the last 300 seconds exactly as it was, token included; one attempted longer ago fails after four attempts and else is pending again, or taken under the new token; nothing else changes that is not taken. Taken are the oldest, up to the limit, of those that are pending or so interrupted, due, and with nothing older for the same incident and destination that is under way. |
| `AlertTables.Tables.FinishAlertDelivery` | internal/database/alert_deliveries.go:67-73 | Only a delivery in flight under this token is finished. |
| `AlertTables.Tables.RetryAlertDelivery` | internal/database/alert_deliveries.go:75-95 | A failed delivery is queued again exactly when it is the latest of its incident and destination, the destination is enabled, and the rule is live at the incident's revision. |
| `AlertTables.Tables.CleanupAlertHistory` | internal/database/alert_deliveries.go:97-99 | The thousand lowest of the incidents closed more than ninety days ago go with their deliveries, and nothing else. Fewer than a thousand go only if none is left that closed so long ago. |
| `AlertRuns.ObservedKeepsSafe` | internal/database/alert_transitions.go:137-242 | Applying a batch keeps: open incidents are exactly those that live rules name, under the current revision, and waiting deliveries belong to live rules' current revisions. |
| `AlertMessages.OpeningIsStored` | internal/database/alert_transitions.go:202-211 | A rule that opens names a new incident with its revision, metric and threshold, the measured value and the time. |
| `AlertMessages.ClosingIsStored` | internal/database/alert_transitions.go:212-240 | A rule that recovers names no incident any more, and the one it named is closed as recovered with the measured value and the time, and otherwise unchanged. |
| `AlertMessages.ToldExactly` | internal/database/alert_transitions.go:312-380 | After a batch a message is new if and only if it tells an enabled destination of a rule that the rule's incident opened or recovered, whichever it was, at the measured value, due at once and not yet attempted. |
| `AlertMessages.ToldOnce` | internal/database/alert_transitions.go:312-380 | No batch tells a destination twice about one incident. |
| `AlertChanges.BatchRules` | internal/database/alert_transitions.go:139-159 | A rule that lost its rotator is disabled under a new revision without an incident; one that was not measured is left alone. |
| `AlertChanges.BatchIncidents` | internal/database/alert_transitions.go:139-240 | An incident that was there closes as a configuration change if its rule lost the rotator, as recovered if its rule recovers, and is else untouched. |
| `AlertChanges.BatchDeliveries` | internal/database/alert_transitions.go:139-159 | A message that was there is canceled if and only if it is under way and its rule lost the rotator; else it is untouched. |
| `AlertRuns.SavedKeepsSafe` | internal/database/alerts.go:143-170 | So does saving a rule. |
| `AlertChanges.SaveStartsAfresh` | internal/database/alerts.go:143-170 | A saved rule holds what was written under the next revision and no clock or incident; all open incidents of the rule close as configuration changes, all its messages under way are canceled, and nothing else changes. |
| `AlertRuns.DeletedKeepsSafe` | internal/database/alerts.go:184-199 | So does deleting one. |
| `AlertChanges.DeleteEnds` | internal/database/alerts.go:184-199 | Deleting a live rule marks it, closes its open incidents and cancels its messages under way, and changes nothing else; otherwise nothing happens. |
| `AlertRuns.RotatorKeepsSafe` | internal/database/database_rotating_proxy_handler.go:301-312 | So does deleting a rotator. |
| `AlertChanges.RotatorEnds` | internal/database/database_rotating_proxy_handler.go:301-312 | Exactly the live rules that measure the rotator are disabled under a new revision, with their open incidents and messages under way ended. |
| `AlertRuns.DestinationKeepsSafe` | internal/database/alerts.go:318-336 | So does changing a destination. |
| `AlertChanges.DestinationEnds` | internal/database/alerts.go:232-283 | Everything under way to the destination is canceled, and nothing else changes. |
| `AlertRuns.ClaimKeepsSafe` | internal/database/alert_deliveries.go:26-55 | So does claiming any eligible deliveries. |
| `AlertRuns.RetryKeepsSafe` | internal/database/alert_deliveries.go:75-95 | So does a retry, because it asks for the rule's revision. |
| `AlertRuns.CleanupKeepsSafe` | internal/database/alert_deliveries.go:97-99 | So does history cleanup. |
| `AlertRuns.ClosingChecksHold` | internal/database/alert_transitions.go:218-233 | In a safe state every closing rule names an open incident of its own, under its revision. |
| `AlertRuns.ClosingIncidentsDiffer` | internal/database/alert_transitions.go:221-223 | And no two closing rules name the same one, so the counts agree. |
| `AlertOutbox.RunKeepsSound` | internal/database/alert_deliveries.go:27-47 | Table safety, delivery order and token fencing are kept by every run of evaluations, edits, deletions, claims, finishes, retries and cleanups. |
| `AlertOutbox.OneOpenIncident` | internal/database/alert_transitions.go:176-186 | In every reachable state a rule has at most one open incident, which is the one it names, under its current revision. |
| `AlertOutbox.WaitingIsCurrent` | internal/database/alerts.go:175-182 | In every reachable state a pending or processing delivery belongs to a live rule's current revision. |
| `AlertOutbox.ClosingNeverFails` | internal/database/alert_transitions.go:221-233 | In every reachable state the two consistency exits are unreachable. |
| `AlertOutbox.OneInFlight` | internal/database/alert_deliveries.go:34-35 | In every reachable state at most one delivery of an incident to a destination is processing. |
| `AlertOutbox.OlderNeverClaimedAgain` | internal/database/alert_deliveries.go:81-86 | Once a newer event of an incident and destination is claimed, no continuation of the run claims an older one: not after stale-claim recovery, a retry or a cancellation. |
| `AlertOutbox.SupersededFinishChangesNothing` | internal/database/alert_deliveries.go:67-73 | A finish without the token of the delivery's latest claim, or of a delivery no longer in flight, changes nothing. |
| `AlertOutbox.ClaimOutdates` | internal/database/alert_deliveries.go:42-47 | Every claim puts the delivery in flight under a token no earlier claim had. |
| `AlertClaims.ClaimIsGoodForFiveMinutes` | internal/database/alert_deliveries.go:27-34 | In every run a claimed delivery keeps its token and stays in flight for five minutes, unless it is finished under that token, canceled, or removed with its incident. |
| `AlertClaims.RetryGoesOut` | internal/database/alert_deliveries.go:75-95 | In every reachable state a delivery that may be retried can be claimed right after the retry: nothing older holds it up. |
| `AlertClaims.NothingGoesToDisabled` | internal/database/alert_transitions.go:312-380 | In every reachable state, what is pending or in flight goes to a destination that is enabled and not deleted. |
| `ReputationQueue.Queue.QueueRefresh` | internal/database/proxy_reputation_refresh.go:16-38 | A new route is queued at version 1; a queued one only gains a version, keeping its place and its lease. |
| `ReputationQueue.Queue.Claim` | internal/database/proxy_reputation_refresh.go:42-74 | Only rows without a current lease are handed out, with version and place as requested, up to the limit; a row that could have been handed out too was requested no earlier than any that was; exactly the rows handed out are leased. |
| `ReputationQueue.Queue.Complete` | internal/database/proxy_reputation_refresh.go:76-108 | A success deletes exactly the rows with the claimed version and lease; what the claim still owns is released, at once after a success and in five seconds after a failure; the chunks come to the same as one statement. |
| `ReputationQueue.CompletedTwice` | internal/database/proxy_reputation_refresh.go:81-105 | Two chunks of one completion touch different rows, so together they are one completion. |
| `ReputationRuns.RunKeepsSound` | internal/database/proxy_reputation_refresh.go:42-108 | Held claims keep their lease or have outlived it, and while they keep it the version tells whether a request came since, over every run of requests, claims, expiries and late finishes. |
| `ReputationRuns.LaterRequestSurvives` | internal/database/proxy_reputation_refresh.go:90-95 | In every reachable state, a completion by claims that all predate a route's latest request leaves its row, even if the row was deleted and queued again at version 1 in between. |
| `ReputationRuns.NoRequestIsLost` | internal/database/proxy_reputation_refresh.go:28-33 | In every reachable state, a route with a request that no successful calculation covered is still queued. |
| `ReputationRuns.SuccessReleases` | internal/database/proxy_reputation_refresh.go:96-104 | A row that a successful worker owned but could not delete is claimable at once. |
| `ReputationRuns.LeasesAreUnique` | internal/database/proxy_reputation_refresh.go:50-58 | Two held claims of one route never have the same lease, and at least one of them has expired. |
| `ReputationRuns.SuccessDeletesExactly` | internal/database/proxy_reputation_refresh.go:76-108 | While its lease runs, a successful claim deletes the row if and only if no request came since the claim, in every reachable state. |
| `ReputationRuns.FailureDelays` | internal/database/proxy_reputation_refresh.go:76-108 | While its lease runs, a failed claim keeps the row with version and place, claimable again after exactly five seconds. |
| `ReputationRuns.TakeHoldsExactly` | internal/database/proxy_reputation_refresh.go:42-74 | A claimed row cannot be claimed for exactly the time of its lease. |
| `ReputationRuns.FirstRequestSetsPlace` | internal/database/proxy_reputation_refresh.go:16-38 | The first request sets a route's place in the queue; over every run that leaves the row queued, later requests, claims and failures keep it. |
| `SortKeys.ValidKey` | internal/database/proxy_statistic_event_retention.go:16-30 | An id has a sort key exactly when it is two unsigned 64-bit decimal numbers joined by one dash. |
| `SortKeys.PadOrder` | internal/database/proxy_statistic_event_retention.go:16-30 | Padding to a common width turns numeric order and equality into string order and equality. |
| `SortKeys.KeyOrder` | internal/database/proxy_statistic_event_retention.go:16-30 | Comparing the sort keys of two valid ids as strings is comparing (ms, seq) as numbers, and equal keys are equal numbers. |
| `SortKeys.StoredKeyAgrees` | internal/database/proxy_statistic_event_retention.go:55-57 | Where both exist, the key the database computes for an old row is the key of its id. |
| `SortKeys.KeyIsItsOwnId` | internal/database/proxy_statistic_event_retention.go:16-30 | Every key is a valid id whose key is itself, so any floor can be raised by some id. |
| `StreamEvents.KeptOnce` | internal/database/database_proxy_statistics_handl.go:197-207 | A batch keeps a fresh identity once however often it lists it, and a refused one never. |
| `StreamEvents.KeepsResultsWithoutIdentity` | internal/database/database_proxy_statistics_handl.go:198-206 | Results without a replayable identity all pass, in order. |
| `StreamLedger.CollectKeys` | internal/database/database_proxy_statistics_handl.go:130-146 | The identities of a batch, each once. |
| `StreamLedger.InsertedTwice` | internal/database/database_proxy_statistics_handl.go:166-196 | Inserting two disjoint chunks one after the other is inserting them together. |
| `StreamLedger.KeepAccepted` | internal/database/database_proxy_statistics_handl.go:197-208 | Consuming accepted identities while scanning keeps the first occurrence of each, in order. |
| `StreamLedger.Ledger.AcceptEvents` | internal/database/database_proxy_statistics_handl.go:129-209 | A valid event that the ledger does not hold is accepted exactly once, and in the ledger afterwards, if and only if its numbers are not below those of its stream's floor (which in every run is empty or the key of a valid id); one the ledger holds is not accepted; nothing else enters or leaves the ledger. Results without an identity all pass; accepted are exactly the first results of the newly kept events, in order. |
| `StreamLedger.Ledger.RetireEvents` | internal/database/proxy_statistic_event_retention.go:35-80 | An invalid floor changes nothing. Otherwise the floor never moves back, up to the limit of old rows get their key, and up to the limit of rows below the floor are removed, lowest keys first; both batches stop short only when nothing qualifies any more. Rows of other streams stay; only rows below the floor go, and a pass that meets neither limit leaves none of them. |
| `StreamRuns.RunKeepsSound` | internal/database/database_proxy_statistics_handl.go:124-129 | Over every run an accepted event is in the ledger or below the floor of its stream, unless its id is replayable in the sense below. |
| `StreamRuns.AcceptedAtMostOnce` | internal/database/database_proxy_statistics_handl.go:129-209 | From an empty or an old, unkeyed ledger, over any sequence of batches, duplicates, replays and retirements, every event whose id is not replayable is accepted at most once. |
| `StreamRuns.ValidIsNotReplayable` | internal/database/proxy_statistic_event_retention.go:16-30 | No valid stream id is replayable, so every valid event is accepted at most once. |
| `StreamRuns.ReplayableIsAcceptedTwice` | internal/database/proxy_statistic_event_retention.go:55-57 | For every replayable id there is a run that accepts it twice. |
| `StreamRuns.ExactlyReplayable` | internal/database/proxy_statistic_event_retention.go:55-57 | An identity can be accepted more than once if and only if its id has no key, the database's normalisation gives it one, and that key lies below the largest floor. |
| `StreamRuns.OutOfRangeIsReplayable` | internal/database/proxy_statistic_event_retention.go:55-57 | Such ids exist: any whose second number has twenty digits and exceeds 64 bits. |
| `StreamAcceptance.FirstIngestAccepts` | internal/database/database_proxy_statistics_handl.go:166-196 | Over every run, the first batch that brings a valid event accepts it, once and for the ledger, if and only if its numbers are not below those of any floor raised on its stream so far. |
| `StreamAcceptance.IngestByNumbers` | internal/database/database_proxy_statistics_handl.go:166-196 | What a batch accepts and keeps in terms of the numbers in ids and floors, whenever floors are empty or keys of valid ids. |
| `StreamAcceptance.RunKeepsKeyedFloors` | internal/database/proxy_statistic_event_retention.go:35-50 | Floors are empty or keys of valid ids in every run. |
| `StreamAcceptance.KeptInOrder` | internal/database/database_proxy_statistics_handl.go:197-208 | The accepted results stand in the order of the batch, at exactly the places that have no identity or are the first with an accepted one. |
| `LatestEvidence.LatestProxyStatusEntries` | internal/database/database_proxy_status_handler.go:42-128 | One entry per conflict key, the latest of the batch, strictly ascending by the full conflict key; and, in id order, exactly the routes with an entry outside all workspaces. Whatever a statistic with route and protocol says, by a piece of evidence with workspace and configuration or, without evidence, by itself, its key has an entry at least as late; and every entry is what some statistic says, alive flag and details included. The routes are exactly those with a result without evidence. |
| `LatestEvidence.UpsertIsMerge` | internal/database/database_proxy_status_handler.go:140-171 | Row-by-row conditional upserts of such a list come to one merge of the batch's latest rows. |
| `LatestEvidence.LatestTable.UpdateLatest` | internal/database/database_proxy_status_handler.go:21-40 | A transaction merges the batch's latest entries into the table. |
| `LatestEvidence.RowsAreLatest` | internal/database/database_proxy_status_handler.go:130-138 | After any sequence of batches each row is the maximum by (checked time, statistic id) of everything ever written for its key. |
| `LatestEvidence.OrderAndBatchingDoNotMatter` | internal/database/database_proxy_status_handler.go:163-169 | Two sequences of batches that write the same entries leave the same table, however they are ordered or split. |
| `LatestEvidence.StatisticsDistinguish` | internal/database/database_proxy_status_handler.go:78-95 | Unique statistic ids and one piece of evidence per configuration are enough for entries of one key never to tie. |
| `LatestEvidence.RowsTellLatest` | internal/database/database_proxy_status_handler.go:42-150 | After any batches, the row of whatever some statistic said is at least as late, and if it is of that statistic it says the same, alive flag included. |
| `LatestEvidence.RowsAreSaid` | internal/database/database_proxy_status_handler.go:42-150 | After any batches, every row is what some statistic said about its key. |
| `DailyTables.Aggregate` | internal/database/database_proxy_daily_checks.go:47-63 | The aggregation loop counts the checks of each route and day. |
| `DailyTables.Counters.IncrementProxyDailyChecks` | internal/database/database_proxy_daily_checks.go:42-98 | Each counter grows by the number of checks of its route and day, late ones included. |
| `DailyTables.Counters.CountHistory` | internal/database/database_proxy_daily_checks.go:327-344 | Scanning the history counts, per route and day, exactly the rows of the routes before today and not before what was compacted. |
| `DailyTables.Counters.BackfillProxyDailyChecks` | internal/database/database_proxy_daily_checks.go:327-362 | In chunks, every counter of the routes becomes the larger of itself and the retained history of its day, before today and not before what was compacted; the routes are marked. |
| `DailyTables.Counters.Fold` | internal/database/database_proxy_daily_checks.go:401-416 | Folding day after day adds exactly the removed counts to the totals and moves their boundary past the latest removed day. |
| `DailyTables.Counters.CompactProxyDailyChecks` | internal/database/database_proxy_daily_checks.go:372-447 | The lowest routes not yet backfilled are backfilled first; then the earliest compactable days, as many as the limit allows, become part of the totals. A pass that meets neither limit leaves no day before the cutoff. |
| `DailyTables.Counters.QueryDashboardCheckCounts` | internal/database/database_proxy_daily_checks.go:265-300 | Total and week are the sums over retained days, totals and raw boundary checks that the naive counts are compared with. |
| `DailyRuns.AcceptKeepsExact` | internal/database/database_proxy_daily_checks.go:42-98 | Accepting checks keeps every counter the number of credited checks of its day that are not folded, and every total the number of folded ones, also when some accepted checks are older than the counters. |
| `DailyRuns.BackfillKeepsExact` | internal/database/database_proxy_daily_checks.go:340-349 | A backfill of routes without a marker keeps that: where the retained history of a past day is more than the counter, the counter becomes that history, and no check is counted twice. |
| `DailyRuns.CompactKeepsExact` | internal/database/database_proxy_daily_checks.go:401-416 | Compaction keeps that: it moves checks from counters to totals and loses none. |
| `DailyUpgrades.RunKeepsExact` | internal/database/database_proxy_daily_checks.go:42-98 | Every run of accepted batches, backfills, compactions and history deletion keeps it, and compaction below a day folds only checks below it. |
| `DailyRuns.TotalShortfall` | internal/database/database_proxy_daily_checks.go:276-295 | The dashboard total plus the accepted checks of past days that nothing is credited with is the number of accepted checks of the owned routes. |
| `DailyRuns.WeekShortfall` | internal/database/database_proxy_daily_checks.go:276-295 | The week count plus such checks inside the window is the number of accepted checks since the cutoff. |
| `DailyUpgrades.RunFills` | internal/database/database_proxy_daily_checks.go:163-210 | Over every run a day of a route is counted in full at the end if and only if it was at the start, or a backfill of the route on a later day found its whole history. |
| `DailyUpgrades.DashboardCountsAreNaiveExactly` | internal/database/database_proxy_daily_checks.go:265-300 | For every installation whose counters know any part of its history, and every run that compacts only below the week window and keeps the raw history of the boundary days, with the day after the cutoff not after today: total and week are the naive counts over everything ever accepted if and only if every day they take from the counters, and that has history the counters did not know, was filled by a backfill of its route. |
| `DailyUpgrades.FilledByDay` | internal/database/database_proxy_daily_checks.go:327-349 | While a route's incompletely counted days keep their history until its backfill, such a day is filled exactly if the backfill comes on a later day. |
| `DailyUpgrades.BackfillDayDecides` | internal/database/database_proxy_daily_checks.go:265-300 | So with the history kept until then, the counts are naive if and only if every owned route was backfilled on a day after each of its days with history the counters did not know. |
| `DailyUpgrades.DashboardCountsAreNaive` | internal/database/database_proxy_daily_checks.go:265-300 | Counters that exist from the first check show the naive counts in every such run. |
| `DailyUpgrades.BackfillRepairs` | internal/database/database_proxy_daily_checks.go:340-349 | A backfill of the route makes the counter of a day the number of its accepted checks if and only if it was that number before, or the day has passed and its whole history is there. |
| `DailyUpgrades.SameDayBackfillLoses` | internal/database/database_proxy_daily_checks.go:193 | For any route and any check older than the counters, a backfill on the day of the check marks the route and leaves total and week of every later day at 0 where the naive counts are 1, with the history still in place. |
| `DailyUpgrades.ConcreteLoss` | internal/database/database_proxy_daily_checks.go:193 | One such run with concrete numbers. |
| `AddressBits.FillBits` | internal/blacklist/manager.go:611-621 | The loop sets exactly the bits from the prefix length on and keeps the others, in place. |
| `AddressBits.FilledValue` | internal/blacklist/manager.go:605-622 | Filling the host bits of a network address of any width yields its value plus 2^(width - bits) - 1. |
| `AddressBits.LastAddress` | internal/blacklist/manager.go:605-622 | The last address of a masked IPv4 or IPv6 prefix is start + 2^(width - bits) - 1. |
| `Blacklist.SpanOf` | internal/blacklist/manager.go:568-575 | The span of a prefix covers exactly the addresses whose leading bits agree with it. |
| `Blacklist.MergeSpans` | internal/blacklist/manager.go:585-600 | Merging sorted spans leaves them sorted and disjoint, covering exactly the same addresses. |
| `Blacklist.BuildBlacklistRangeCache` | internal/blacklist/manager.go:558-603 | The index covers exactly the addresses that a linear scan finds in some usable prefix; the usable prefixes are kept in masked form and in order, and the others are counted. |
| `Blacklist.OnlyCandidate` | internal/blacklist/manager.go:635-643 | In sorted, disjoint spans only the last one that does not start after the address can cover it. |
| `Blacklist.InRange` | internal/blacklist/manager.go:624-644 | The binary search answers as the linear scan of the spans, for IPv4, IPv6 and mapped addresses; text that is no address is never blocked. |
| `Blacklist.FilterProxies` | internal/blacklist/manager.go:147-174 | Allowed and blocked are the order-preserving halves of the input by one predicate: in the exact set or in some listed prefix. |
| `Blacklist.OnlyPartitions` | internal/blacklist/manager.go:147-174 | Those halves lose and duplicate nothing, and each holds only routes of its kind. |
| `Blacklist.ContainsBitwise` | internal/blacklist/manager.go:147-174 | The division by the number of hosts, which the scan uses, is agreement of the leading bits, bit by bit. |
| `Blacklist.BlockedBitwise` | internal/blacklist/manager.go:147-174 | A route is blocked if and only if the address it stands for, IPv4 for a mapped one, is listed itself or agrees with the leading bits of a listed prefix that is not one of mapped addresses. |
| `Rotator.RotatingProxy.FetchCandidate` | internal/database/database_rotating_proxy_handler.go:491-506 | The lowest eligible id, past the cursor if asked for, or none. |
| `Rotator.RotatingProxy.GetNext` | internal/database/database_rotating_proxy_handler.go:329-387 | The lowest eligible id past the cursor, else the lowest eligible id; the cursor moves to it, and stays if none is eligible. |
| `Rotator.SelectionMovesOn` | internal/database/database_rotating_proxy_handler.go:468-489 | Seen from any eligible route other than the cursor, every selection is further on the way round. |
| `Rotator.NobodyTwiceWhileWaiting` | internal/database/database_rotating_proxy_handler.go:349-365 | While a route stays eligible, no other is selected twice between two of its selections, whatever else joins or leaves. |
| `Rotator.RoundRobin` | internal/database/database_rotating_proxy_handler.go:468-489 | With a fixed set, from any cursor, the selections go round the ids in order. |
| `Rotator.EachExactlyOnce` | internal/database/database_rotating_proxy_handler.go:349-365 | Any n consecutive selections from a fixed set of n eligible routes visit each exactly once, from any cursor. |

## Left out

- GORM and SQL text: statements are modelled by what they read and write; query plans, batching limits of inserts without effect on the rows, migrations and index maintenance are not.
- SQLite branches: only the Postgres behaviour is modelled where the two differ.
- Redis, HTTP, email, webhooks, DNS, logging, tickers and environment settings: they appear as events, or not at all.
- SHA-256, encryption and random tokens: replaced by injective or unique values.
- Website blocklists and per-instance headers: judges that differ between instances without a revision are not modelled.
- Refresh of the filter indexes and scrape-source statistics inside the loader: they do not feed back into the revision protocol.
- Workspace deletion, judge and preference writes, tag creation and limits: the settings step keeps only revision, watermark and changed tags; unknown tags and profiles are refused before the steps modelled here.
- DefaultCheckerSettings: a workspace that never stored a profile is modelled as one that stores bare defaults without rules, because the source assembles exactly such a profile from its columns.
- CheckerStore.Store.DeleteManagedRoutes: the filter on a route's state is the caller's choice of the set; the batch is one statement of one workspace.
- CheckerStore.Store.PruneDeletedCheckerRoutes: which tombstones are old enough, and how many one pass takes, is an arbitrary candidate set, which covers every choice.
- CheckerStore.Store.ApplyScrapeSourceTags: one workspace per step, and the transaction's two readings of the source's tags are taken to agree; an unknown fetch mode is refused before any change.
- CheckerStore.Store.DeleteProxyTag: deleting a tag that does not exist is an error before any change and not a step here.
- SnapshotBuild.GroupAssignments: sorting in place is modelled on values; the caller does not use the list afterwards.
- Judge round-robin counters and interned judge-set numbers of a plan: they do not enter its keys.
- CheckerLoader.LoadCheckerWorkspace: the assembly of the judge list is not modelled; the base holds the judges.
- Flush loop of the read model (read_model_indexes.go:343-453): its steps are events with any timing instead of one loop; scrape-source statistics are not tracked, a batch is released after its last prefix.
- Rule names, unknown reasons, sample counts, alert payloads and destination secrets: no step decides on them.
- AlertTables.Tables.ClaimAlertDeliveries: the class takes the oldest eligible rows; in AlertOutbox concurrent workers that skip each other's locked rows take any subset of the eligible ones.
- AlertTables.Tables.RecordAlertEvaluationAttempts: scheduling between workspaces is not modelled.
- Four delivery attempts as a bound over a whole run: retries reset the count, and the sender is not part of this model.
- Alert metrics themselves: an observation is any value, or none, for a rule.
- ReputationQueue.Queue.Claim: as with deliveries, ReputationRuns lets a claim take any subset of the claimable rows; reputation scores are not modelled.
- LatestEvidence.LatestProxyStatusEntries: columns that are copied are one value; the overall status derived from the second result is not modelled.
- Pruning of obsolete evidence and of orphan counters: they remove what no read modelled here returns.
- DailyTables.Counters.CompactProxyDailyChecks: rows locked by others are skipped by the source; DailyUpgrades therefore lets a compaction take any days that qualify.
- Blacklist.InRange: addresses with a zone and the parsing of text are not modelled; an entry is a prefix or unparsable.
- Rotator.RotatingProxy.GetNext: eligibility is a set given at each call, and a failure to read credentials is not modelled.
- Lists, searches, exports, filter builders, dashboards and DTO mapping: plumbing around the state modelled here.
