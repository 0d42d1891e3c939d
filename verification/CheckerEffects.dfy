// What a workspace's users see of the protocol: every write takes effect at the next load of any instance.
module CheckerEffects {
  import opened Options
  import opened CheckerSettings
  import opened Plans
  import opened SnapshotBuild
  import opened CheckerRevision
  import opened RuleChanges
  import opened CheckerConvergence
  import opened CheckerRuns

  // The keys of a route that holds the tags: what the first rules it holds say, compiled as it asks for.
  ghost predicate ShownAsRuled(settings: Settings, base: Base, tags: set<nat>, keys: seq<Key>) {
    exists plan: Plan :: plan.keys == keys && AsRuled(settings, tags, plan.settings) && AsAsked(base, plan.settings, plan)
  }

  lemma RoutePlanAsRuled(settings: Settings, base: Base, tags: set<nat>)
    ensures ShownAsRuled(settings, base, tags, RoutePlan(settings, base, tags).keys)
  {
    hide AsRuled, AsAsked;
    ResolveAsRuled(settings, tags);
    CompileIsAsAsked(base, Resolve(settings, tags));
    var plan := RoutePlan(settings, base, tags);
    assert AsRuled(settings, tags, plan.settings) && AsAsked(base, plan.settings, plan);
  }

  // In every reachable state, the next load of any instance shows every route what the rules say about its tags.
  lemma LoadShowsRules(world: World, instance: nat, route: nat)
    requires Reachable(world)
    ensures var loaded := LoadedSnapshot(world.db, Cached(world, instance));
            && ShownAsRuled(Effective(world.db.config), world.db.base, Tags(world.db, route), SnapshotKeys(loaded, route))
            && loaded.policy == world.db.policy && loaded.base == world.db.base
            && loaded.settings.defaults == Effective(world.db.config).defaults && loaded.settings.rules == Effective(world.db.config).rules
  {
    hide ShownAsRuled, Reachable, LoadedDefault, LoadedPlans, Writes, LoadedRevision;
    EveryLoadIsAFullRebuild(world, instance, route);
    RoutePlanAsRuled(Effective(world.db.config), world.db.base, Tags(world.db, route));
  }

  // ---- What a write asks for ---------------------------------------------------------------------------------

  ghost predicate Writing(action: Action) {
    !action.Loaded? && !action.Published? && !action.Restarted?
  }

  ghost predicate OwnedAfter(db: Database, action: Action, route: nat) {
    match action
    case Imported(imported) => route == imported || route in db.routes
    case Removed(routes) => route in db.routes && route !in routes
    case _ => route in db.routes
  }

  // A workspace tags its own routes only, and a list that holds another route is refused as a whole.
  ghost predicate TagsAfter(db: Database, action: Action, route: nat, tags: set<nat>) {
    var before := if route in db.routes then db.routes[route] else {};
    match action
    case Retagged(changed, given) => tags == if route == changed && route in db.routes then given else before
    case Tagged(routes, given) =>
      tags == if route in routes && forall r | r in routes :: r in db.routes then before + given else before
    case SourceTagged(found, given, matches) => tags == if matches && route in found && route in db.routes then before + given else before
    case TagDeleted(tag) => tags == before - {tag}
    case Removed(routes) => tags == if route in routes then {} else before
    case _ => tags == before
  }

  // The profile that rules then: an edit's own, and after the deletion of a rule the stored one as it stands.
  ghost function RulingSettings(db: Database, action: Action): Settings {
    if action.Edited? && action.edit.config.Some? then action.edit.config.value
    else if action.TagDeleted? && exists rule :: rule in db.config.rules && rule.tag == action.tag then db.config
    else Effective(db.config)
  }

  ghost function BaseAfter(db: Database, action: Action): Base {
    if action.Edited? then action.edit.base else db.base
  }

  lemma WriteOwners(db: Database, action: Action, route: nat)
    requires Writing(action)
    ensures var next := Write(db, action); (route in next.routes <==> OwnedAfter(db, action, route)) && next.base == BaseAfter(db, action)
    ensures Write(db, action).policy == if action.Edited? then action.edit.policy else db.policy
  {
    hide Record, ChangedHolders, NeedsFullRefresh, Effective, RemoveRule, NeedTombstones, MaxRevision, Restored;
  }

  lemma WriteTags(db: Database, action: Action, route: nat)
    requires Writing(action)
    ensures TagsAfter(db, action, route, Tags(Write(db, action), route))
  {
    hide Record, ChangedHolders, NeedsFullRefresh, Effective, RemoveRule, NeedTombstones, MaxRevision, Restored;
  }

  lemma WriteRules(world: World, action: Action, tags: set<nat>, keys: seq<Key>)
    requires Legal(world, action) && Writing(action) && (action.TagDeleted? ==> action.tag !in tags)
    requires ShownAsRuled(Effective(Write(world.db, action).config), BaseAfter(world.db, action), tags, keys)
    ensures ShownAsRuled(RulingSettings(world.db, action), BaseAfter(world.db, action), tags, keys)
  {
    hide AsRuled, AsAsked, ShownAsRuled, Record, ChangedHolders, NeedsFullRefresh, NeedTombstones, MaxRevision, Restored;
    var db, next := world.db, Write(world.db, action);
    if action.TagDeleted? {
      DeletedTagRules(db, action.tag, BaseAfter(db, action), tags, keys);
    }
  }

  lemma DeletedTagRules(db: Database, tag: nat, base: Base, tags: set<nat>, keys: seq<Key>)
    requires tag !in tags && ShownAsRuled(Effective(DeleteTag(db, tag).config), base, tags, keys)
    ensures ShownAsRuled(RulingSettings(db, TagDeleted(tag)), base, tags, keys)
  {
    hide AsAsked;
    EffectiveRules(db.config);
    if tag in RuleTags(Effective(db.config).rules) {
      var i :| 0 <= i < |db.config.rules| && db.config.rules[i].tag == tag;
      assert db.config.rules[i] in db.config.rules;
      var plan: Plan :| plan.keys == keys && AsRuled(RemoveRule(db.config, tag), tags, plan.settings) && AsAsked(base, plan.settings, plan);
      ResolveAsRuled(RemoveRule(db.config, tag), tags);
      AsRuledIsUnique(RemoveRule(db.config, tag), tags, plan.settings, Resolve(RemoveRule(db.config, tag), tags));
      RemoveRulePlan(db.config, tag, tags);
      ResolveAsRuled(db.config, tags);
    } else {
      assert !exists rule :: rule in db.config.rules && rule.tag == tag by {
        assert forall rule | rule in db.config.rules :: rule.tag in RuleTags(db.config.rules);
      }
    }
  }

  // In every reachable state, whatever is written next, the load after it shows every route what was asked for:
  // its new tags under the new profile, compiled for the new judges; by whichever instance, with whatever cached.
  lemma WritesTakeEffect(world: World, action: Action, instance: nat, route: nat) returns (tags: set<nat>)
    requires Reachable(world) && Legal(world, action) && Writing(action)
    ensures var next := Next(world, action);
            && (route in next.db.routes <==> OwnedAfter(world.db, action, route))
            && TagsAfter(world.db, action, route, tags)
            && ShownAsRuled(RulingSettings(world.db, action), BaseAfter(world.db, action), tags,
                            SnapshotKeys(LoadedSnapshot(next.db, Cached(next, instance)), route))
            && LoadedSnapshot(next.db, Cached(next, instance)).policy == if action.Edited? then action.edit.policy else world.db.policy
  {
    hide Reachable, Legal, ShownAsRuled, LoadedSnapshot, SnapshotKeys, Write, TagsAfter, OwnedAfter, BaseAfter, RulingSettings;
    var next := Next(world, action);
    assert next == world.(db := Write(world.db, action));
    StepIsReachable(world, action);
    LoadShowsRules(next, instance, route);
    WriteOwners(world.db, action, route);
    WriteTags(world.db, action, route);
    tags := Tags(next.db, route);
    assert action.TagDeleted? ==> action.tag !in tags by { TagIsGone(world.db, action, route, tags); }
    WriteRules(world, action, tags, SnapshotKeys(LoadedSnapshot(next.db, Cached(next, instance)), route));
  }

  lemma TagIsGone(db: Database, action: Action, route: nat, tags: set<nat>)
    requires TagsAfter(db, action, route, tags)
    ensures action.TagDeleted? ==> action.tag !in tags
  {
  }

  // A load that is repeated without a write in between finds nothing to do: it returns the snapshot of the first
  // one, and leaves row and tables alone.
  lemma LoadTwiceIsOnce(db: Database, previous: Option<Snapshot>)
    ensures var once, loaded := LoadedDatabase(db, previous), LoadedSnapshot(db, previous);
            LoadedDatabase(once, Some(loaded)) == once && LoadedSnapshot(once, Some(loaded)) == loaded
  {
    hide Incremental, DefaultChanged, LoadedDelta, LoadedPlans, LoadedDefault, Rewrite;
  }

  // A load writes only when there is something to settle: pending work, a workspace that was never compiled, or
  // default keys or rows that are not what is compiled now, or another base than the one that was cached.
  lemma LoadWritesOnlyChanges(world: World, instance: nat)
    requires Reachable(world) && LoadedDatabase(world.db, Cached(world, instance)) != world.db
    ensures var next := LoadedDatabase(world.db, Cached(world, instance));
            || world.db.dirty || world.db.generation == 0
            || next.defaultKeys != world.db.defaultKeys || next.overrides != world.db.overrides
            || (Cached(world, instance).Some? && !SameBase(world.cached[instance], world.db))
  {
    hide Reachable, Incremental, RowsMatch, Rewrite, LoadedPlans, LoadedDefault;
    var db, previous := world.db, Cached(world, instance);
    var w := ReachableIsSound(world);
    assert previous.Some? ==> Knows(world, previous.value);
    if LoadedDelta(db, previous) != {} {
      var route :| route in LoadedDelta(db, previous);
      DeltaChangesRows(db, w, previous, route);
    }
  }

  lemma DeltaChangesRows(db: Database, w: nat, previous: Option<Snapshot>, route: nat)
    requires Loadable(db, w, previous) && route in LoadedDelta(db, previous)
    ensures Rewrite(db.overrides, LoadedDelta(db, previous), LoadedDefault(db, previous), LoadedPlans(db, previous)) != db.overrides
  {
    hide LoadedPlans, LoadedDefault, Rewrite, Consistent;
    var changed, default_, plans := LoadedDelta(db, previous), LoadedDefault(db, previous), LoadedPlans(db, previous);
    LoadedPlanAt(db, w, previous, route);
    LoadedKeys(db, w, previous, route);
    RewrittenMatches(db.overrides, changed, default_, plans, route);
  }

  lemma RewrittenMatches(overrides: map<(nat, nat), Row>, changed: set<nat>, default_: Plan, plans: map<nat, Plan>, route: nat)
    requires route in changed && |default_.keys| == 4 && (route in plans ==> |plans[route].keys| == 4 && |plans[route].settings| == 4)
    ensures RowsMatch(Rewrite(overrides, changed, default_, plans), default_, PlanAt(default_, plans, route), route)
  {
    hide Rewrite;
    forall index: nat { RewrittenRow(overrides, changed, default_, plans, route, index); }
  }

  // In every reachable state, the instance that loads accepts what it loaded.
  lemma LoadIsPublished(world: World, instance: nat)
    requires Reachable(world)
    ensures var loaded := LoadedSnapshot(world.db, Cached(world, instance)); Publish(world.cached, instance, loaded)[instance] == loaded
  {
    hide Reachable, Writes, LoadedPlans, LoadedDefault, LoadedRevision, SameInput;
    if instance in world.cached { KnownGenerations(world, instance); }
  }

  // ---- Who is told --------------------------------------------------------------------------------------------

  // The route holds a tag whose rule does not stand unchanged at its place.
  ghost predicate HoldsChangedRule(db: Database, before: seq<Rule>, after: seq<Rule>, route: nat) {
    route in db.routes && exists rule ::
      && (rule in before || rule in after) && rule.tag in db.routes[route]
      && !exists i :: 0 <= i < |before| && i < |after| && before[i].tag == rule.tag && before[i] == after[i]
  }

  ghost predicate RecordedExactly(db: Database, next: Database, recorded: iset<nat>, deleted: bool) {
    && next.revision == db.revision + 1 && next.dirty
    && forall route: nat ::
         if route in recorded then route in next.changes && next.changes[route] == Change(db.revision + 1, deleted)
         else (route in next.changes <==> route in db.changes) && (route in db.changes ==> next.changes[route] == db.changes[route])
  }

  // An edit asks for a full refresh if and only if it changes the defaults in force, the scheme of SOCKS judges, or
  // brings a judge list; otherwise it records exactly the routes that hold a changed rule.
  lemma EditTells(db: Database, edit: Edit)
    ensures var next := UpdateSettings(db, edit);
            var before, after := Effective(db.config), Effective(if edit.config.Some? then edit.config.value else db.config);
            if before.defaults != after.defaults || db.base.httpsForSocks != edit.base.httpsForSocks || edit.judgesProvided then
              next.fullRevision == db.revision + 1 && RecordedExactly(db, next, iset{}, false)
            else
              next.fullRevision == db.fullRevision &&
              RecordedExactly(db, next, iset route: nat | HoldsChangedRule(db, before.rules, after.rules, route), false)
  {
    hide Effective, HoldsChangedRule, ChangedHolders, RecordedExactly;
    var before, after := Effective(db.config).rules, Effective(StoredConfig(db, edit)).rules;
    if !NeedsFullRefresh(db, edit) {
      forall route: nat ensures route in ChangedHolders(db, edit) <==> HoldsChangedRule(db, before, after, route) {
        HoldersChanged(db, before, after, route);
        HoldersOfEdit(db, edit, route);
      }
      RecordIsExact(db, UpdateSettings(db, edit), ChangedHolders(db, edit), iset route: nat | HoldsChangedRule(db, before, after, route));
    } else {
      NothingRecorded(db, UpdateSettings(db, edit));
    }
  }

  lemma HoldersOfEdit(db: Database, edit: Edit, route: nat)
    ensures route in ChangedHolders(db, edit) <==>
            route in Holders(db, ChangedTags(Effective(db.config).rules, Effective(StoredConfig(db, edit)).rules))
  {
  }

  lemma RecordIsExact(db: Database, next: Database, routes: set<nat>, recorded: iset<nat>)
    requires next.revision == db.revision + 1 && next.dirty && next.changes == Record(db.changes, routes, db.revision + 1, false)
    requires forall route: nat :: route in routes <==> route in recorded
    ensures RecordedExactly(db, next, recorded, false)
  {
  }

  lemma NothingRecorded(db: Database, next: Database)
    requires next.revision == db.revision + 1 && next.dirty && next.changes == db.changes
    ensures RecordedExactly(db, next, iset{}, false)
  {
  }

  lemma HoldersChanged(db: Database, before: seq<Rule>, after: seq<Rule>, route: nat)
    ensures route in Holders(db, ChangedTags(before, after)) <==> HoldsChangedRule(db, before, after, route)
  {
    if route in Holders(db, ChangedTags(before, after)) {
      var tag :| tag in db.routes[route] * ChangedTags(before, after);
      assert !SameRule(before, after, tag);
      if tag in RuleTags(before) {
        var i :| 0 <= i < |before| && before[i].tag == tag;
        assert before[i] in before;
      } else {
        var i :| 0 <= i < |after| && after[i].tag == tag;
        assert after[i] in after;
      }
    }
    if HoldsChangedRule(db, before, after, route) {
      var rule :| (rule in before || rule in after) && rule.tag in db.routes[route] &&
                  !exists i :: 0 <= i < |before| && i < |after| && before[i].tag == rule.tag && before[i] == after[i];
      assert rule.tag in db.routes[route] * ChangedTags(before, after);
    }
  }

  // Tagging tells nobody unless a rule in force uses one of the tags; then it records exactly the owned ones of the routes.
  lemma TaggingTells(db: Database, tags: set<nat>, routes: set<nat>)
    ensures var next := MarkAssignments(db, tags, routes);
            if routes != {} && exists rule :: rule in Effective(db.config).rules && rule.tag in tags then
              next.fullRevision == db.fullRevision &&
              RecordedExactly(db, next, iset route: nat | route in routes && route in db.routes, false)
            else next == db
  {
    hide Effective;
    var rules := Effective(db.config).rules;
    if rule :| rule in rules && rule.tag in tags { assert rule.tag in RuleTags(rules) * tags; }
    if RuleTags(rules) * tags != {} {
      var tag :| tag in RuleTags(rules) * tags;
      var i :| 0 <= i < |rules| && rules[i].tag == tag;
      assert rules[i] in rules;
    }
  }

  // Deleting routes leaves a tombstone for exactly those that some snapshot may know: with an override or a change row.
  lemma DeletionTells(db: Database, selected: set<nat>)
    ensures var next := DeleteRoutes(db, selected);
            var known := iset route: nat | route in selected && route in db.routes &&
                                           (route in db.changes || exists index: nat :: (route, index) in db.overrides);
            && (known != iset{} ==> RecordedExactly(db, next, known, true))
            && (known == iset{} ==> next.changes == db.changes && next.revision == db.revision && next.dirty == db.dirty)
  {
    var gone := selected * db.routes.Keys;
    forall route: nat ensures RowsOf(db.overrides, route) != {} <==> exists index: nat :: (route, index) in db.overrides {
      if index: nat :| (route, index) in db.overrides { assert index in RowsOf(db.overrides, route); }
      if RowsOf(db.overrides, route) != {} { var index :| index in RowsOf(db.overrides, route); }
    }
    var affected := NeedTombstones(db, gone);
    var known := iset route: nat | route in selected && route in db.routes && (route in db.changes || exists index: nat :: (route, index) in db.overrides);
    forall route: nat ensures route in affected <==> route in known {
    }
    if affected != {} { var route :| route in affected; assert known != iset{}; } else { assert known == iset{}; }
  }

  // Pruning turns the candidates' tombstones of owned routes back into change rows, drops the settled ones of routes
  // that are gone, keeps every other row, and lets the watermark pass exactly what it drops.
  lemma PruningLeaves(db: Database, candidates: set<nat>, route: nat)
    ensures var next := Prune(db, candidates);
            var tombstone := route in candidates && route in db.changes && db.changes[route].deleted;
            var settled := !db.dirty && route in db.changes && db.changes[route].revision <= db.projected;
            && (tombstone && route in db.routes ==> route in next.changes && next.changes[route] == Change(db.changes[route].revision, false))
            && (tombstone && route !in db.routes && settled ==> route !in next.changes && next.fullRevision >= db.changes[route].revision)
            && (!tombstone || (route !in db.routes && !settled) ==>
                  (route in next.changes <==> route in db.changes) && (route in db.changes ==> next.changes[route] == db.changes[route]))
            && next.fullRevision >= db.fullRevision && next.routes == db.routes && next.overrides == db.overrides
            && (next.fullRevision > db.fullRevision ==>
                  exists gone :: gone in db.changes && gone !in next.changes && db.changes[gone].revision == next.fullRevision)
  {
    var next, removed := Prune(db, candidates), Removable(db, candidates);
    assert IsMaxRevision(db.changes, removed, db.fullRevision, next.fullRevision);
  }

  // A stored override carries the transport of its key.
  lemma RowsCarryTransport(world: World, route: nat, index: nat)
    requires Reachable(world) && (route, index) in world.db.overrides && world.db.overrides[(route, index)].key.Key?
    ensures world.db.overrides[(route, index)].transport == world.db.overrides[(route, index)].key.transport
  {
    var w := ReachableIsSound(world);
  }
}
