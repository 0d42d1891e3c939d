// Many instances sharing one database: every run keeps the invariants, and every load is a full rebuild.
module CheckerRuns {
  import opened Options
  import opened CheckerSettings
  import opened Plans
  import opened SnapshotBuild
  import opened CheckerRevision
  import opened LegacyDeletion
  import opened CheckerConvergence

  // Each instance caches at most one snapshot; a load that has committed may not be published yet.
  datatype World = World(db: Database, cached: map<nat, Snapshot>, loading: set<(nat, Snapshot)>)

  datatype Action =
    | Edited(edit: Edit)
    | Retagged(route: nat, tags: set<nat>)
    | Tagged(routes: set<nat>, tags: set<nat>)
    | SourceTagged(found: set<nat>, tags: set<nat>, matches: bool)
    | TagDeleted(tag: nat)
    | Imported(route: nat)
    | Removed(routes: set<nat>)
    | Pruned(candidates: set<nat>)
    | Loaded(instance: nat)
    | Published(instance: nat, snapshot: Snapshot)
    | Restarted(instance: nat)

  ghost function Cached(world: World, instance: nat): Option<Snapshot> {
    if instance in world.cached then Some(world.cached[instance]) else None
  }

  ghost function Write(db: Database, action: Action): Database {
    match action
    case Edited(edit) => UpdateSettings(db, edit)
    case Retagged(route, tags) => ReplaceTags(db, route, tags)
    case Tagged(routes, tags) => AddTags(db, routes, tags)
    case SourceTagged(found, tags, matches) => ApplySourceTags(db, found, tags, matches)
    case TagDeleted(tag) => DeleteTag(db, tag)
    case Imported(route) => AddRoute(db, route)
    case Removed(routes) => DeleteRoutes(db, routes)
    case Pruned(candidates) => Prune(db, candidates)
    case _ => db
  }

  ghost predicate Legal(world: World, action: Action) {
    match action
    case Edited(edit) => EditAllowed(world.db, edit)
    case TagDeleted(tag) => DeletionIsSafe(world.db.config, tag)
    case Published(instance, snapshot) => (instance, snapshot) in world.loading
    case _ => true
  }

  // Publishing replaces the cached snapshot unless that one has a higher generation.
  ghost function Publish(cached: map<nat, Snapshot>, instance: nat, snapshot: Snapshot): map<nat, Snapshot> {
    if instance in cached && cached[instance].generation > snapshot.generation then cached
    else cached[instance := snapshot]
  }

  ghost function Next(world: World, action: Action): World {
    match action
    case Loaded(instance) =>
      world.(db := LoadedDatabase(world.db, Cached(world, instance)),
             loading := world.loading + {(instance, LoadedSnapshot(world.db, Cached(world, instance)))})
    case Published(instance, snapshot) =>
      world.(cached := Publish(world.cached, instance, snapshot), loading := world.loading - {(instance, snapshot)})
    case Restarted(instance) =>
      world.(cached := world.cached - {instance}, loading := set l | l in world.loading && l.0 != instance)
    case _ => world.(db := Write(world.db, action))
  }

  ghost predicate LegalRun(world: World, actions: seq<Action>)
    decreases |actions|
  {
    actions != [] ==> Legal(world, actions[0]) && LegalRun(Next(world, actions[0]), actions[1..])
  }

  ghost function After(world: World, actions: seq<Action>): World
    decreases |actions|
  {
    if actions == [] then world else After(Next(world, actions[0]), actions[1..])
  }

  // A workspace that was never compiled, with no instance running.
  ghost predicate Uncompiled(world: World) {
    && Ordered(world.db) && DistinctTags(world.db.config.rules)
    && world.db.generation == 0 && world.db.overrides == map[]
    && world.cached == map[] && world.loading == {}
  }

  ghost predicate Knows(world: World, s: Snapshot) {
    (exists instance :: instance in world.cached && world.cached[instance] == s) ||
    (exists instance :: (instance, s) in world.loading)
  }

  ghost predicate InOrder(world: World) {
    forall s, t | Knows(world, s) && Knows(world, t) && s.generation <= t.generation :: s.revision <= t.revision
  }

  ghost predicate Sound(world: World, w: nat) {
    && Consistent(world.db, w)
    && (forall s | Knows(world, s) :: Tracked(world.db, w, s))
    && InOrder(world)
  }

  lemma WriteStep(db: Database, w: nat, action: Action)
    requires Consistent(db, w) && !action.Loaded? && !action.Published? && !action.Restarted?
    requires action.Edited? ==> EditAllowed(db, action.edit)
    requires action.TagDeleted? ==> DeletionIsSafe(db.config, action.tag)
    ensures WriterStep(db, w, Write(db, action))
  {
    match action
    case Edited(edit) => UpdateSettingsStep(db, w, edit);
    case Retagged(route, tags) => ReplaceTagsStep(db, w, route, tags);
    case Tagged(routes, tags) => AddTagsStep(db, w, routes, tags);
    case SourceTagged(found, tags, matches) => ApplySourceTagsStep(db, w, found, tags, matches);
    case TagDeleted(tag) => DeleteTagStep(db, w, tag);
    case Imported(route) => AddRouteStep(db, w, route);
    case Removed(routes) => DeleteRoutesStep(db, w, routes);
    case Pruned(candidates) => PruneStep(db, w, candidates);
  }

  lemma WriteKeepsSound(world: World, w: nat, action: Action)
    requires Sound(world, w) && Legal(world, action)
    requires !action.Loaded? && !action.Published? && !action.Restarted?
    ensures Sound(Next(world, action), Watermark(world.db, w, Write(world.db, action)))
  {
    var next := Next(world, action);
    WriteStep(world.db, w, action);
    WriterKeepsConsistent(world.db, w, next.db);
    forall s | Knows(next, s) ensures Knows(world, s) && Tracked(next.db, Watermark(world.db, w, next.db), s) {
      WriterKeepsTracked(world.db, w, next.db, s);
    }
  }

  // After a load, the loaded snapshot is the latest of all that are known.
  lemma LoadKeepsKnown(world: World, w: nat, instance: nat, s: Snapshot)
    requires Sound(world, w) && Knows(Next(world, Loaded(instance)), s)
    ensures var previous := Cached(world, instance);
            var db, loaded := LoadedDatabase(world.db, previous), LoadedSnapshot(world.db, previous);
            && Tracked(db, Watermark(world.db, w, db), s)
            && s.generation <= loaded.generation && s.revision <= loaded.revision
            && (s.generation == loaded.generation ==> s.revision == loaded.revision)
            && (s == loaded || Knows(world, s))
  {
    var previous := Cached(world, instance);
    LoadSettlesTotals(world.db, w, previous);
    if s == LoadedSnapshot(world.db, previous) {
      LoadTracks(world.db, w, previous);
    } else {
      assert Knows(world, s);
      LoadKeepsTracked(world.db, w, previous, s);
    }
  }

  lemma LoadKeepsSound(world: World, w: nat, instance: nat)
    requires Sound(world, w)
    ensures Sound(Next(world, Loaded(instance)), Watermark(world.db, w, LoadedDatabase(world.db, Cached(world, instance))))
  {
    var next := Next(world, Loaded(instance));
    LoadConsistent(world.db, w, Cached(world, instance));
    forall s | Knows(next, s) { LoadKeepsKnown(world, w, instance, s); }
    forall s, t | Knows(next, s) && Knows(next, t) && s.generation <= t.generation ensures s.revision <= t.revision {
      LoadKeepsKnown(world, w, instance, s);
      LoadKeepsKnown(world, w, instance, t);
    }
  }

  lemma ForgetfulStepKeepsSound(world: World, w: nat, action: Action)
    requires Sound(world, w) && Legal(world, action) && (action.Published? || action.Restarted?)
    ensures Sound(Next(world, action), w)
  {
    forall s | Knows(Next(world, action), s) ensures Knows(world, s) {
      if action.Published? {
        assert (action.instance, action.snapshot) in world.loading;
      }
    }
  }

  lemma StepKeepsSound(world: World, w: nat, action: Action) returns (later: nat)
    requires Sound(world, w) && Legal(world, action)
    ensures Sound(Next(world, action), later)
  {
    match action
    case Loaded(instance) =>
      LoadKeepsSound(world, w, instance);
      later := Watermark(world.db, w, LoadedDatabase(world.db, Cached(world, instance)));
    case Published(_, _) => ForgetfulStepKeepsSound(world, w, action); later := w;
    case Restarted(_) => ForgetfulStepKeepsSound(world, w, action); later := w;
    case _ => WriteKeepsSound(world, w, action); later := Watermark(world.db, w, Write(world.db, action));
  }

  lemma {:induction false} RunKeepsSound(world: World, w: nat, actions: seq<Action>) returns (later: nat)
    requires Sound(world, w) && LegalRun(world, actions)
    ensures Sound(After(world, actions), later)
    decreases |actions|
  {
    later := w;
    if actions != [] {
      later := StepKeepsSound(world, w, actions[0]);
      later := RunKeepsSound(Next(world, actions[0]), later, actions[1..]);
    }
  }

  ghost predicate Reachable(world: World) {
    exists start, actions :: Uncompiled(start) && LegalRun(start, actions) && After(start, actions) == world
  }

  lemma {:induction false} AppendAction(start: World, actions: seq<Action>, action: Action)
    requires LegalRun(start, actions) && Legal(After(start, actions), action)
    ensures LegalRun(start, actions + [action]) && After(start, actions + [action]) == Next(After(start, actions), action)
    decreases |actions|
  {
    var all := actions + [action];
    if actions == [] {
      assert all == [action] && all[1..] == [];
      assert After(Next(start, action), []) == Next(start, action);
    } else {
      assert all[1..] == actions[1..] + [action];
      AppendAction(Next(start, actions[0]), actions[1..], action);
    }
  }

  lemma StepIsReachable(world: World, action: Action)
    requires Reachable(world) && Legal(world, action)
    ensures Reachable(Next(world, action))
  {
    var start, actions :| Uncompiled(start) && LegalRun(start, actions) && After(start, actions) == world;
    AppendAction(start, actions, action);
    assert Uncompiled(start) && LegalRun(start, actions + [action]) && After(start, actions + [action]) == Next(world, action);
  }

  lemma ReachableIsSound(world: World) returns (w: nat)
    requires Reachable(world)
    ensures Sound(world, w)
  {
    var start, actions :| Uncompiled(start) && LegalRun(start, actions) && After(start, actions) == world;
    assert Sound(start, start.db.fullRevision);
    w := RunKeepsSound(start, start.db.fullRevision, actions);
  }

  // ---- What every run promises ----------------------------------------------------------------------------

  // Whatever an instance has cached, its next load shows every route the keys of a full rebuild, and so do
  // the tables it leaves behind.
  lemma EveryLoadIsAFullRebuild(world: World, instance: nat, route: nat)
    requires Reachable(world)
    ensures var loaded := LoadedSnapshot(world.db, Cached(world, instance));
            && SnapshotKeys(loaded, route) == FullPlan(world.db, route).keys
            && SnapshotKeys(loaded, route) == SnapshotKeys(LoadedSnapshot(world.db, None), route)
    ensures RowsExact(LoadedDatabase(world.db, Cached(world, instance)), route)
  {
    var w := ReachableIsSound(world);
    LoadSettles(world.db, w, Cached(world, instance));
    LoadSettles(world.db, w, None);
  }

  // While nothing is pending, readers of the tables get the compiled key of every route.
  lemma CleanTablesAreCompiled(world: World, route: nat, index: nat)
    requires Reachable(world) && !world.db.dirty && world.db.generation > 0 && index < 4
    ensures world.db.projected == world.db.revision && |world.db.defaultKeys| == 4
    ensures CoalescedKey(world.db, route, index) == FullPlan(world.db, route).keys[index]
    ensures (route, index) in world.db.overrides <==>
            FullPlan(world.db, route).keys[index] != DefaultPlan(world.db).keys[index]
  {
    var w := ReachableIsSound(world);
    assert RowsExact(world.db, route) || Newer(world.db, route, world.db.projected);
  }

  // While nothing is pending, a cached snapshot of the current generation is a full rebuild.
  lemma CurrentGenerationIsExact(world: World, instance: nat, route: nat)
    requires Reachable(world) && !world.db.dirty
    requires instance in world.cached && world.cached[instance].generation == world.db.generation
    ensures SnapshotKeys(world.cached[instance], route) == FullPlan(world.db, route).keys
  {
    var w := ReachableIsSound(world);
    var s := world.cached[instance];
    assert Knows(world, s);
    assert SnapshotKeys(s, route) == FullPlan(world.db, route).keys || Newer(world.db, route, s.revision);
  }

  // Snapshots arrive in any order, and none is ever replaced by one of an older revision.
  lemma RevisionsNeverGoBack(world: World, action: Action, instance: nat)
    requires Reachable(world) && Legal(world, action) && instance in world.cached && action != Restarted(instance)
    ensures var next := Next(world, action);
            instance in next.cached && world.cached[instance].revision <= next.cached[instance].revision
  {
    var w := ReachableIsSound(world);
    if action.Published? && action.instance == instance {
      assert Knows(world, world.cached[instance]) && Knows(world, action.snapshot);
    }
  }

  lemma KnownGenerations(world: World, instance: nat)
    requires Reachable(world) && instance in world.cached
    ensures world.cached[instance].generation <= world.db.generation
  {
    var w := ReachableIsSound(world);
    assert Knows(world, world.cached[instance]);
  }

  // Settling pending work always raises the generation, so every instance accepts the result.
  lemma SettlingIsPublished(world: World, instance: nat, other: nat)
    requires Reachable(world) && world.db.dirty
    ensures var loaded := LoadedSnapshot(world.db, Cached(world, instance));
            && (other in world.cached ==> world.cached[other].generation < loaded.generation)
            && Publish(world.cached, other, loaded)[other] == loaded
  {
    if other in world.cached { KnownGenerations(world, other); }
  }
}
