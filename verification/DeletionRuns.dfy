// Why deleting a tag of a converted profile needs its guard: without it, a run leaves stale keys behind.
module DeletionRuns {
  import opened Options
  import opened CheckerSettings
  import opened Plans
  import opened SnapshotBuild
  import opened CheckerRevision
  import opened LegacyDeletion
  import opened CheckerConvergence
  import opened CheckerRuns

  ghost function StartWith(config: Settings, base: Base, tags: set<nat>): World {
    World(Database(config, base, 0, map[0 := tags], 0, 0, 0, 0, false, [], map[], map[]), map[], {})
  }

  // One instance loads, and the load is published.
  ghost function Warm(config: Settings, base: Base, tags: set<nat>): World {
    var start := StartWith(config, base, tags);
    Next(Next(start, Loaded(0)), Published(0, LoadedSnapshot(start.db, None)))
  }

  lemma WarmIsReachable(config: Settings, base: Base, tags: set<nat>)
    requires DistinctTags(config.rules)
    ensures Reachable(Warm(config, base, tags))
  {
    var start := StartWith(config, base, tags);
    assert Uncompiled(start) && LegalRun(start, []) && After(start, []) == start;
    StepIsReachable(start, Loaded(0));
    StepIsReachable(Next(start, Loaded(0)), Published(0, LoadedSnapshot(start.db, None)));
  }

  lemma WarmState(config: Settings, base: Base, tags: set<nat>)
    requires DistinctTags(config.rules)
    ensures var world := Warm(config, base, tags);
            && 0 in world.cached && world.db.config == config && world.db.base == base
            && world.db.routes == map[0 := tags] && world.db.changes == map[]
            && world.db.revision == world.db.fullRevision == world.db.projected == world.db.generation == 1 && !world.db.dirty
            && world.cached[0].revision == world.cached[0].generation == 1
            && world.cached[0].base == base && world.cached[0].settings == Effective(config)
            && SnapshotKeys(world.cached[0], 0) == RoutePlan(Effective(config), base, tags).keys
  {
    var start := StartWith(config, base, tags);
    assert DefaultChanged(start.db, None) && Announces(start.db, None);
    assert LoadedPlans(start.db, None) == BuiltPlans(start.db, {0});
  }

  lemma StaleDeletion(config: Settings, tag: nat, base: Base, tags: set<nat>)
    requires DistinctTags(config.rules) && tag in RuleTags(config.rules) && tag !in tags
    requires config.defaults.transport == Tcp && Converted(config)
    ensures var before := Warm(config, base, tags);
            var db := DeleteTag(before.db, tag);
            SnapshotKeys(LoadedSnapshot(db, Cached(before, 0)), 0) == RoutePlan(Effective(config), base, tags).keys
  {
    WarmState(config, base, tags);
    var before := Warm(config, base, tags);
    NothingAffected(DeleteTag(before.db, tag), before.cached[0]);
  }

  lemma NothingAffected(db: Database, s: Snapshot)
    requires Incremental(db, Some(s)) && Affected(db, s.revision) == {}
    ensures LoadedSnapshot(db, Some(s)).plans == s.plans && LoadedSnapshot(db, Some(s)).default_ == s.default_
  {
    assert BuiltPlans(db, {}) == map[];
  }

  // A world in which deleting the tag makes the next load of instance 0 miss route 0.
  ghost predicate DeletionGoesStale(world: World, tag: nat) {
    && Reachable(world)
    && SnapshotKeys(LoadedSnapshot(DeleteTag(world.db, tag), Cached(world, 0)), 0) != FullPlan(DeleteTag(world.db, tag), 0).keys
  }

  lemma UnsafeDeletionGoesStale(config: Settings, tag: nat, base: Base) returns (world: World)
    requires DistinctTags(config.rules) && !DeletionIsSafe(config, tag)
    ensures world.db.config == config && world.db.base == base && DeletionGoesStale(world, tag)
  {
    var tags: set<nat> :| tag !in tags && OffTcp(ResolveFrom(config, tags, 0));
    world := Warm(config, base, tags);
    WarmIsReachable(config, base, tags);
    WarmState(config, base, tags);
    StaleDeletion(config, tag, base, tags);
    RemoveRulePlan(config, tag, tags);
    TcpSelection(config, tags, 0);
    OffTcpKeys(ResolveFrom(config, tags, 0), base);
    EffectiveRules(config);
    assert DeleteTag(world.db, tag).routes[0] == tags;
    assert Effective(DeleteTag(world.db, tag).config) == RemoveRule(config, tag);
  }

  // The guard is exact: a tag deletion is safe from every reachable world with this configuration, or
  // there is one in which the next load keeps a stale key.
  lemma DeletionIsSafeExactly(config: Settings, tag: nat)
    requires DistinctTags(config.rules)
    ensures DeletionIsSafe(config, tag) <==>
            forall world, instance: nat, route: nat | Reachable(world) && world.db.config == config ::
              var db := DeleteTag(world.db, tag);
              SnapshotKeys(LoadedSnapshot(db, Cached(world, instance)), route) == FullPlan(db, route).keys
  {
    if DeletionIsSafe(config, tag) {
      forall world, instance: nat, route: nat | Reachable(world) && world.db.config == config
        ensures var db := DeleteTag(world.db, tag);
                SnapshotKeys(LoadedSnapshot(db, Cached(world, instance)), route) == FullPlan(db, route).keys
      {
        SafeDeletionStaysExact(world, tag, instance, route);
      }
    } else {
      var world := UnsafeDeletionGoesStale(config, tag, Base(false, [], []));
    }
  }

  lemma SafeDeletionStaysExact(world: World, tag: nat, instance: nat, route: nat)
    requires Reachable(world) && DeletionIsSafe(world.db.config, tag)
    ensures var db := DeleteTag(world.db, tag);
            SnapshotKeys(LoadedSnapshot(db, Cached(world, instance)), route) == FullPlan(db, route).keys
  {
    var w := ReachableIsSound(world);
    var later := StepKeepsSound(world, w, TagDeleted(tag));
    var next := Next(world, TagDeleted(tag));
    LoadSettles(next.db, later, Cached(next, instance));
  }

  // The condition as a check that can be made before a tag is deleted.
  method DecideSafeDeletion(config: Settings, tag: nat) returns (safe: bool)
    ensures safe <==> DeletionIsSafe(config, tag)
  {
    hide DeletionIsLocal;
    if tag !in RuleTags(config.rules) || config.defaults.transport != Tcp { return true; }
    safe := DecideLocalDeletion(config, tag);
  }

  // A profile of the earlier format whose second rule cannot be deleted safely.
  lemma UnsafeProfile()
    ensures var config := Settings(Profile([Http], Tcp, 5000, 1),
                                   [Rule(1, Add, [Http], Some(Quic), None, None), Rule(2, Add, [Socks4], None, None, None)], true);
            Valid(AllTcp(config)) && DistinctTags(config.rules) && !DeletionIsSafe(config, 2)
  {
    var rules := [Rule(1, Add, [Http], Some(Quic), None, None), Rule(2, Add, [Socks4], None, None, None)];
    var config := Settings(Profile([Http], Tcp, 5000, 1), rules, true);
    assert WellFormed(config);
    TcpConversionRepairs(config);
    assert ResolveFrom(config, {1, 2}, 2) == Initial(config.defaults);
    assert ResolveFrom(config, {1, 2}, 1) == Apply(rules[1], ResolveFrom(config, {1, 2}, 2));
    assert ResolveFrom(config, {1, 2}, 0) == Apply(rules[0], ResolveFrom(config, {1, 2}, 1));
    assert Resolve(config, {1, 2})[2] == Check(true, Quic, 5000, 1);
    assert !SupportedPlan(Resolve(config, {1, 2}));
    assert ResolveFrom(config, {1}, 2) == Initial(config.defaults);
    assert ResolveFrom(config, {1}, 1) == ResolveFrom(config, {1}, 2);
    assert ResolveFrom(config, {1}, 0) == Apply(rules[0], ResolveFrom(config, {1}, 1));
    assert OffTcp(ResolveFrom(config, {1}, 0));
    assert rules[1].tag in RuleTags(rules);
  }
}
