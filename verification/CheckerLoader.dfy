// Loading a workspace: compile what changed, merge it into the cached snapshot, bring the tables up to date.
module CheckerLoader {
  import opened Options
  import opened CheckerSettings
  import opened Plans
  import opened ProxyPlans
  import opened SnapshotBuild
  import opened CheckerRevision
  import opened CheckerConvergence
  import opened Ids
  import opened ProjectionDelta
  import opened CheckerStore

  // An instance's compiled snapshot.
  class CachedSnapshot {
    var settings: Settings
    var base: Base
    var policy: nat
    var revision: nat
    var generation: nat
    var default_: Plan
    var proxies: ProxyPlans

    ghost predicate Valid()
      reads this, proxies, proxies.shards
    {
      proxies.Valid() && AllComplete(default_, proxies.entries)
    }

    ghost function Value(): Snapshot
      reads this, proxies
    {
      Snapshot(settings, base, policy, revision, generation, default_, proxies.entries)
    }

    constructor (settings: Settings, base: Base, policy: nat, default_: Plan, proxies: ProxyPlans)
      ensures this.settings == settings && this.base == base && this.policy == policy
      ensures this.default_ == default_ && this.proxies == proxies
    {
      this.settings, this.base, this.policy := settings, base, policy;
      this.default_, this.proxies := default_, proxies;
      revision, generation := 0, 0;
    }
  }

  ghost function ValueOf(snapshot: CachedSnapshot?): Option<Snapshot>
    reads snapshot, if snapshot == null then {} else {snapshot.proxies}
  {
    if snapshot == null then None else Some(snapshot.Value())
  }

  // The tags with rules that the routes in scope hold.
  ghost function ScopedTags(db: Database, tags: set<nat>, scope: set<nat>, route: nat): set<nat> {
    if route in scope && route in db.routes then db.routes[route] * tags else {}
  }

  method LoadAssignments(db: Database, workspace: nat, tags: set<nat>, scope: set<nat>) returns (assignments: seq<Assignment>)
    ensures forall route: nat :: TagsOf(assignments, workspace, route) == ScopedTags(db, tags, scope, route)
  {
    assignments := [];
    var pairs := set route, tag | route in db.routes && tag in db.routes[route] && route in scope && tag in tags :: (route, tag);
    var left := pairs;
    while left != {}
      invariant left <= pairs
      invariant forall route: nat, tag: nat :: tag in TagsOf(assignments, workspace, route) <==> (route, tag) in pairs - left
      decreases |left|
    {
      var pair :| pair in left;
      forall route: nat { TagsOfAppend(assignments, Assignment(workspace, pair.0, pair.1), workspace, route); }
      assignments := assignments + [Assignment(workspace, pair.0, pair.1)];
      left := left - {pair};
    }
    forall route: nat, tag: nat ensures tag in TagsOf(assignments, workspace, route) <==> tag in ScopedTags(db, tags, scope, route) {
      assert (route, tag) in pairs <==> route in db.routes && tag in db.routes[route] && route in scope && tag in tags;
    }
  }

  // A build over the assignments in scope stores exactly the sparse plans of the routes in scope.
  lemma BuiltMatches(db: Database, scope: set<nat>, tagsOf: nat -> set<nat>, default_: Plan, entries: map<nat, Plan>)
    requires ExactSnapshot(Effective(db.config), db.base, tagsOf, default_, entries)
    requires forall route: nat :: tagsOf(route) == ScopedTags(db, RuleTags(Effective(db.config).rules), scope, route)
    ensures default_ == DefaultPlan(db) && entries == BuiltPlans(db, scope)
  {
    hide Compile, ResolveFrom;
    var settings := Effective(db.config);
    forall route: nat ensures At(entries, route) == At(BuiltPlans(db, scope), route) {
      assert SparseKeys(default_, entries, route) == RoutePlan(settings, db.base, tagsOf(route)).keys;
      if route in scope && route in db.routes {
        PlanIgnoresOtherTags(settings, db.base, db.routes[route]);
      }
    }
    SameAtSameMap(entries, BuiltPlans(db, scope));
  }

  lemma SameAtSameMap(a: map<nat, Plan>, b: map<nat, Plan>)
    requires forall route: nat :: At(a, route) == At(b, route)
    ensures a == b
  {
    forall route: nat ensures (route in a <==> route in b) && (route in a ==> a[route] == b[route]) {
      assert At(a, route) == At(b, route);
    }
  }

  lemma BuiltComplete(db: Database, routes: set<nat>)
    ensures AllComplete(DefaultPlan(db), BuiltPlans(db, routes))
  {
  }

  method CompileScope(db: Database, workspace: nat, scope: set<nat>) returns (default_: Plan, plans: ProxyPlans)
    ensures fresh(plans) && plans.Valid()
    ensures default_ == DefaultPlan(db) && plans.entries == BuiltPlans(db, scope)
  {
    var settings := DefaultCheckerSettings(db.config);
    var assignments := LoadAssignments(db, workspace, RuleTags(settings.rules), scope);
    default_, plans := Build(settings, db.base, workspace, assignments);
    BuiltMatches(db, scope, route => TagsOf(assignments, workspace, route), default_, plans.entries);
  }

  lemma PatchComplete(a: Plan, before: map<nat, Plan>, b: Plan, plans: map<nat, Plan>)
    requires AllComplete(a, before) && AllComplete(b, plans)
    ensures AllComplete(a, plans)
  {
  }

  lemma MergeMatches(previous: map<nat, Plan>, patch: map<nat, Plan>, ids: seq<nat>, after: map<nat, Plan>)
    requires IsMerge(previous, patch, ids, after)
    ensures after == MergedPlans(previous, patch, Elements(ids))
  {
    forall route: nat ensures At(after, route) == At(MergedPlans(previous, patch, Elements(ids)), route) {
      assert At(after, route) == MergedAt(previous, patch, ids, route);
    }
    SameAtSameMap(after, MergedPlans(previous, patch, Elements(ids)));
  }

  lemma MergedComplete(default_: Plan, previous: map<nat, Plan>, patch: map<nat, Plan>, affected: set<nat>)
    requires AllComplete(default_, previous) && AllComplete(default_, patch)
    ensures AllComplete(default_, MergedPlans(previous, patch, affected))
  {
  }

  // The previous plans with the affected routes compiled anew.
  method MergeCompiled(previous: ProxyPlans, patch: ProxyPlans, affected: set<nat>, ghost default_: Plan) returns (merged: ProxyPlans)
    requires previous.Valid() && patch.Valid()
    requires AllComplete(default_, previous.entries) && AllComplete(default_, patch.entries)
    ensures (merged == previous || fresh(merged)) && merged.Valid()
    ensures merged.entries == MergedPlans(previous.entries, patch.entries, affected) && AllComplete(default_, merged.entries)
  {
    hide AllComplete, IsMerge, MergedPlans;
    var ids := Listed(affected);
    var result := MergeProxyPlans(previous, patch, ids);
    MergeMatches(previous.entries, patch.entries, ids, Entries(result));
    MergedComplete(default_, previous.entries, patch.entries, affected);
    if result == null {
      merged := new ProxyPlans();
    } else {
      merged := result;
    }
  }

  // The snapshot an instance compiles, before it is numbered: merged into the previous one, or cold.
  method CompileSnapshot(db: Database, workspace: nat, previous: CachedSnapshot?, incremental: bool, affected: set<nat>)
    returns (snapshot: CachedSnapshot)
    requires previous != null ==> previous.Valid()
    requires incremental == Incremental(db, ValueOf(previous))
    requires incremental ==> affected == Affected(db, previous.revision)
    ensures fresh(snapshot) && snapshot.Valid()
    ensures snapshot.settings == Effective(db.config) && snapshot.base == db.base && snapshot.policy == db.policy
    ensures snapshot.default_ == LoadedDefault(db, ValueOf(previous)) && snapshot.proxies.entries == LoadedPlans(db, ValueOf(previous))
  {
    hide Compile, RoutePlan, Resolve, Effective, AllComplete, MergedPlans, BuiltPlans, Affected;
    var default_, plans := CompileScope(db, workspace, if incremental then affected else db.routes.Keys);
    var settings := DefaultCheckerSettings(db.config);
    BuiltComplete(db, if incremental then affected else db.routes.Keys);
    if incremental {
      PatchComplete(previous.default_, previous.proxies.entries, default_, plans.entries);
      var merged := MergeCompiled(previous.proxies, plans, affected, previous.default_);
      snapshot := new CachedSnapshot(settings, db.base, db.policy, previous.default_, merged);
    } else {
      snapshot := new CachedSnapshot(settings, db.base, db.policy, default_, plans);
    }
  }

  // The parts of the decision that need no compilation.
  method Decide(db: Database, previous: CachedSnapshot?) returns (upToDate: bool, incremental: bool)
    ensures upToDate == UpToDate(db, ValueOf(previous)) && incremental == Incremental(db, ValueOf(previous))
    ensures upToDate ==> previous != null
  {
    hide Valid, Converted;
    if previous == null { return false, false; }
    var settings := DefaultCheckerSettings(db.config);
    var sameBase := previous.base == db.base && previous.settings.defaults == settings.defaults;
    if !db.dirty && previous.generation == db.generation && previous.revision == db.revision
       && sameBase && previous.settings.rules == settings.rules && previous.policy == db.policy {
      upToDate := true;
    } else {
      upToDate := false;
    }
    incremental := sameBase && previous.revision >= db.fullRevision && previous.revision <= db.revision;
    if db.dirty && db.revision <= db.projected {
      incremental := false;
    }
    if previous.generation != db.generation && previous.revision == db.revision {
      incremental := false;
    }
  }

  // What the loader finds before it writes.
  datatype Finding = Finding(incremental: bool, affected: set<nat>, defaultChanged: bool, changed: set<nat>, announces: bool, writes: bool)

  ghost predicate Finds(db: Database, previous: Option<Snapshot>, f: Finding) {
    && f.incremental == Incremental(db, previous)
    && (f.incremental ==> f.affected == Affected(db, previous.value.revision))
    && f.defaultChanged == DefaultChanged(db, previous) && f.changed == LoadedDelta(db, previous)
    && f.announces == Announces(db, previous) && f.writes == Writes(db, previous)
  }

  lemma FindsMeans(db: Database, previous: Option<Snapshot>, f: Finding)
    requires f.incremental == Incremental(db, previous)
    requires f.incremental ==> f.affected == Affected(db, previous.value.revision)
    requires f.defaultChanged == (db.generation == 0 || LoadedDefault(db, previous).keys != db.defaultKeys)
    requires f.changed == Delta(db, if f.incremental then f.affected else StoredRoutes(db.overrides) + LoadedPlans(db, previous).Keys,
                                LoadedDefault(db, previous), LoadedPlans(db, previous))
    requires f.announces == (!f.incremental && db.revision == db.projected &&
                             (f.defaultChanged || f.changed != {} || (previous.Some? && !SameBase(previous.value, db))))
    requires f.writes == (f.defaultChanged || f.changed != {} || db.dirty || f.announces)
    ensures Finds(db, previous, f)
  {
    hide Incremental, LoadedDefault, LoadedPlans, SameBase, Delta, StoredRoutes, Affected;
  }

  method Inspect(db: Database, workspace: nat, previous: CachedSnapshot?, incremental: bool) returns (snapshot: CachedSnapshot, f: Finding)
    requires previous != null ==> previous.Valid()
    requires incremental == Incremental(db, ValueOf(previous))
    ensures fresh(snapshot) && snapshot.Valid()
    ensures snapshot.settings == Effective(db.config) && snapshot.base == db.base && snapshot.policy == db.policy
    ensures snapshot.default_ == LoadedDefault(db, ValueOf(previous)) && snapshot.proxies.entries == LoadedPlans(db, ValueOf(previous))
    ensures Finds(db, ValueOf(previous), f)
  {
    hide Compile, RoutePlan, Resolve, Converted, LoadedDefault, LoadedPlans, Delta, FullPlan, Finds, Incremental, DefaultChanged, LoadedDelta, Announces, Writes;
    ghost var before := ValueOf(previous);
    assert incremental ==> previous != null by { IncrementalStart(db, before); }
    var affected := {};
    if incremental {
      affected := set route | route in db.changes && previous.revision < db.changes[route].revision <= db.revision;
    }
    snapshot := CompileSnapshot(db, workspace, previous, incremental, affected);
    var plans := snapshot.proxies.Range();
    var defaultChanged := db.generation == 0 || snapshot.default_.keys != db.defaultKeys;
    var changed := CheckerProjectionDelta(db, snapshot.default_, plans, affected, incremental);
    var baseChanged := previous != null && !(previous.base == db.base && previous.settings.defaults == snapshot.settings.defaults);
    var announces := !incremental && db.revision == db.projected && (defaultChanged || changed != {} || baseChanged);
    f := Finding(incremental, affected, defaultChanged, changed, announces,
                 defaultChanged || changed != {} || db.dirty || announces);
    FindsMeans(db, before, f);
  }

  lemma IncrementalStart(db: Database, previous: Option<Snapshot>)
    ensures Incremental(db, previous) ==> previous.Some?
  {
  }

  lemma LoadedMeans(db: Database, previous: Option<Snapshot>, f: Finding, rows: map<(nat, nat), Row>)
    requires Finds(db, previous, f) && !UpToDate(db, previous)
    requires f.writes ==> rows == Rewrite(db.overrides, f.changed, LoadedDefault(db, previous), LoadedPlans(db, previous))
    ensures var revision := if f.announces then db.revision + 1 else db.revision;
            && LoadedRevision(db, previous) == revision
            && LoadedDatabase(db, previous) ==
               (if f.writes then
                  db.(generation := db.generation + 1, dirty := false, projected := revision, revision := revision,
                      fullRevision := if f.announces then revision else db.fullRevision,
                      defaultKeys := LoadedDefault(db, previous).keys, overrides := rows)
                else db)
  {
    hide Incremental, DefaultChanged, LoadedDelta, Announces, Writes;
  }

  // Numbers the snapshot and brings the tables up to date with it.
  method Settle(store: Store, snapshot: CachedSnapshot, f: Finding, ghost previous: Option<Snapshot>)
    requires snapshot.Valid() && Finds(store.Contents(), previous, f) && !UpToDate(store.Contents(), previous)
    requires snapshot.default_ == LoadedDefault(store.Contents(), previous)
    requires snapshot.proxies.entries == LoadedPlans(store.Contents(), previous)
    modifies store, snapshot`revision, snapshot`generation
    ensures snapshot.Valid() && snapshot.proxies.entries == old(snapshot.proxies.entries)
    ensures store.Contents() == LoadedDatabase(old(store.Contents()), previous)
    ensures snapshot.revision == LoadedRevision(old(store.Contents()), previous)
    ensures snapshot.generation == old(store.generation) + (if Writes(old(store.Contents()), previous) then 1 else 0)
  {
    hide UpToDate, Incremental, DefaultChanged, LoadedDelta, Announces, Writes, LoadedDatabase, LoadedDefault, LoadedPlans, LoadedRevision, Rewrite;
    var db := store.Contents();
    var revision := if f.announces then db.revision + 1 else db.revision;
    snapshot.revision := revision;
    snapshot.generation := if f.writes then db.generation + 1 else db.generation;
    var rows := db.overrides;
    if f.writes {
      var plans := snapshot.proxies.Range();
      var ids := Listed(f.changed);
      rows := RewriteRows(db.overrides, snapshot.default_, plans, ids);
      store.Project(revision, if f.announces then revision else db.fullRevision, snapshot.default_.keys, rows);
    }
    LoadedMeans(db, previous, f, rows);
  }

  // The transaction that every refresh runs. A workspace that is gone has no row, and its refresh no snapshot.
  method LoadCheckerWorkspace(row: Store?, workspace: nat, previous: CachedSnapshot?) returns (snapshot: CachedSnapshot?)
    requires previous != null ==> previous.Valid()
    modifies row
    ensures row == null <==> snapshot == null
    ensures row != null ==>
              && snapshot.Valid() && (snapshot == previous || fresh(snapshot))
              && row.Contents() == old(LoadedDatabase(row.Contents(), ValueOf(previous)))
              && snapshot.Value() == old(LoadedSnapshot(row.Contents(), ValueOf(previous)))
  {
    if row == null { return null; }
    snapshot := LoadWorkspace(row, workspace, previous);
  }

  method LoadWorkspace(store: Store, workspace: nat, previous: CachedSnapshot?) returns (snapshot: CachedSnapshot)
    requires previous != null ==> previous.Valid()
    modifies store
    ensures snapshot.Valid() && (snapshot == previous || fresh(snapshot))
    ensures store.Contents() == old(LoadedDatabase(store.Contents(), ValueOf(previous)))
    ensures snapshot.Value() == old(LoadedSnapshot(store.Contents(), ValueOf(previous)))
  {
    hide UpToDate, Writes, LoadedDatabase, LoadedDefault, LoadedPlans, LoadedRevision, AllComplete, Effective, Finds;
    var db := store.Contents();
    ghost var before := ValueOf(previous);
    var upToDate, incremental := Decide(db, previous);
    if upToDate {
      UpToDateLoad(db, before);
      return previous;
    }
    var f;
    snapshot, f := Inspect(db, workspace, previous, incremental);
    Settle(store, snapshot, f, before);
  }

  lemma UpToDateLoad(db: Database, previous: Option<Snapshot>)
    requires UpToDate(db, previous)
    ensures LoadedDatabase(db, previous) == db
  {
  }

  // One process: the snapshot it serves from.
  class Instance {
    var cached: CachedSnapshot?

    // A refresh may finish after a later one; the snapshot with the higher generation stays. A workspace that is
    // gone has no snapshot, and its cached one is dropped.
    method Publish(loaded: CachedSnapshot?)
      modifies this
      ensures loaded == null ==> cached == null
      ensures loaded != null ==>
                cached == if old(cached) != null && old(cached.generation) > loaded.generation then old(cached) else loaded
    {
      if loaded == null {
        cached := null;
      } else if cached == null || cached.generation <= loaded.generation {
        cached := loaded;
      }
    }
  }
}
