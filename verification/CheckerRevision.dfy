// The revision protocol of one workspace: the database row and tables, the instances' snapshots,
// and every transaction as one atomic step.
module CheckerRevision {
  import opened Options
  import opened CheckerSettings
  import opened Plans
  import opened ProxyPlans
  import opened SnapshotBuild
  import opened RuleChanges

  // One persisted override: a (route, protocol) pair whose key differs from the default.
  datatype Row = Row(key: Key, transport: Transport)

  // One coalesced change row per route. A deleted one is a tombstone.
  datatype Change = Change(revision: nat, deleted: bool)

  datatype Database = Database(
    config: Settings, base: Base, policy: nat,
    routes: map<nat, set<nat>>,               // owned routes and their tags
    revision: nat, fullRevision: nat, projected: nat, generation: nat, dirty: bool,
    defaultKeys: seq<Key>,
    overrides: map<(nat, nat), Row>,
    changes: map<nat, Change>)

  datatype Snapshot = Snapshot(settings: Settings, base: Base, policy: nat, revision: nat, generation: nat,
                               default_: Plan, plans: map<nat, Plan>)

  ghost function Tags(db: Database, route: nat): set<nat> {
    if route in db.routes then db.routes[route] else {}
  }

  // What a full rebuild compiles for a route.
  ghost function FullPlan(db: Database, route: nat): Plan {
    RoutePlan(Effective(db.config), db.base, Tags(db, route))
  }

  ghost function DefaultPlan(db: Database): Plan {
    RoutePlan(Effective(db.config), db.base, {})
  }

  ghost function SnapshotKeys(s: Snapshot, route: nat): seq<Key> {
    SparseKeys(s.default_, s.plans, route)
  }

  // The key a reader gets from the tables: the override, else the workspace default.
  ghost function CoalescedKey(db: Database, route: nat, index: nat): Key
    requires index < |db.defaultKeys|
  {
    if (route, index) in db.overrides then db.overrides[(route, index)].key else db.defaultKeys[index]
  }

  ghost predicate Newer(db: Database, route: nat, revision: nat) {
    route in db.changes && db.changes[route].revision > revision
  }

  // ---- Writers ------------------------------------------------------------------------------------

  // One upsert statement: every listed route gets the revision, and its deletion flag is set as given.
  function Record(changes: map<nat, Change>, routes: set<nat>, revision: nat, deleted: bool): map<nat, Change> {
    changes + map route | route in routes :: Change(revision, deleted)
  }

  // The routes that hold one of the tags.
  function Holding(routes: map<nat, set<nat>>, tags: set<nat>): set<nat> {
    set route | route in routes && routes[route] * tags != {}
  }

  ghost function Holders(db: Database, tags: set<nat>): set<nat> {
    Holding(db.routes, tags)
  }

  function WithTags(routes: map<nat, set<nat>>, some: set<nat>, tags: set<nat>): map<nat, set<nat>> {
    map route | route in routes :: if route in some then routes[route] + tags else routes[route]
  }

  function WithoutOneTag(routes: map<nat, set<nat>>, tag: nat): map<nat, set<nat>> {
    map route | route in routes :: routes[route] - {tag}
  }

  // What the settings transaction writes. No configuration means the stored one stays. A workspace that
  // never stored one keeps bare defaults, which are not validated and have no rules.
  datatype Edit = Edit(config: Option<Settings>, base: Base, policy: nat, judgesProvided: bool)

  ghost predicate EditAllowed(db: Database, edit: Edit) {
    && (edit.config.Some? ==> (Valid(edit.config.value) || edit.config.value.rules == []) && !edit.config.value.legacy)
    && edit.base.headers == db.base.headers
    && (edit.base.judges != db.base.judges ==> edit.judgesProvided)
  }

  function StoredConfig(db: Database, edit: Edit): Settings {
    if edit.config.Some? then edit.config.value else db.config
  }

  ghost predicate NeedsFullRefresh(db: Database, edit: Edit) {
    || Effective(db.config).defaults != Effective(StoredConfig(db, edit)).defaults
    || db.base.httpsForSocks != edit.base.httpsForSocks || edit.judgesProvided
  }

  ghost function ChangedHolders(db: Database, edit: Edit): set<nat> {
    Holders(db, ChangedTags(Effective(db.config).rules, Effective(StoredConfig(db, edit)).rules))
  }

  // The new revision and what it announces: a full refresh, or the routes that hold a changed rule tag.
  ghost function AnnounceEdit(db: Database, edit: Edit): Database {
    var full := NeedsFullRefresh(db, edit);
    db.(revision := db.revision + 1, dirty := true,
        fullRevision := if full then db.revision + 1 else db.fullRevision,
        changes := if full then db.changes else Record(db.changes, ChangedHolders(db, edit), db.revision + 1, false))
  }

  ghost function UpdateSettings(db: Database, edit: Edit): Database {
    AnnounceEdit(db, edit).(config := StoredConfig(db, edit), base := edit.base, policy := edit.policy)
  }

  ghost function MarkAssignments(db: Database, tags: set<nat>, routes: set<nat>): Database {
    if RuleTags(Effective(db.config).rules) * tags == {} || routes == {} then db
    else db.(revision := db.revision + 1, dirty := true,
             changes := Record(db.changes, routes * db.routes.Keys, db.revision + 1, false))
  }

  ghost function ReplaceTags(db: Database, route: nat, tags: set<nat>): Database {
    if route !in db.routes then db
    else
      var changed := (db.routes[route] - tags) + (tags - db.routes[route]);
      MarkAssignments(db.(routes := db.routes[route := tags]), changed, {route})
  }

  ghost function AddTags(db: Database, routes: set<nat>, tags: set<nat>): Database {
    if !(routes <= db.routes.Keys) || routes == {} || tags == {} then db
    else
      MarkAssignments(db.(routes := WithTags(db.routes, routes, tags)), tags, routes)
  }

  // A scrape source tags what it found, as far as it is owned; all that was found is announced. A source whose fetch
  // mode changed meanwhile adds no tags.
  ghost function ApplySourceTags(db: Database, found: set<nat>, tags: set<nat>, matches: bool): Database {
    MarkAssignments(db.(routes := WithTags(db.routes, found, if matches then tags else {})), tags, found)
  }

  ghost function DeleteTag(db: Database, tag: nat): Database {
    var routes := WithoutOneTag(db.routes, tag);
    if tag !in RuleTags(Effective(db.config).rules) then db.(routes := routes)
    else db.(revision := db.revision + 1, dirty := true,
             changes := Record(db.changes, Holders(db, {tag}), db.revision + 1, false),
             routes := routes, config := RemoveRule(db.config, tag))
  }

  ghost function AddRoute(db: Database, route: nat): Database {
    if route in db.routes then db else db.(routes := db.routes[route := {}])
  }

  function RowsOf(overrides: map<(nat, nat), Row>, route: nat): set<nat> {
    set k | k in overrides && k.0 == route :: k.1
  }

  // Only routes with an override or a change row need a tombstone. Deleting ownership cascades to
  // assignments and overrides.
  function NeedTombstones(db: Database, gone: set<nat>): set<nat> {
    set route | route in gone && (RowsOf(db.overrides, route) != {} || route in db.changes)
  }

  function DropRoutes(db: Database, gone: set<nat>): Database {
    db.(routes := db.routes - gone, overrides := map k | k in db.overrides && k.0 !in gone :: db.overrides[k])
  }

  ghost function DeleteRoutes(db: Database, selected: set<nat>): Database {
    var gone := selected * db.routes.Keys;
    var affected := NeedTombstones(db, gone);
    if affected == {} then DropRoutes(db, gone)
    else DropRoutes(db, gone).(revision := db.revision + 1, dirty := true,
                               changes := Record(db.changes, affected, db.revision + 1, true))
  }

  // The highest revision of the change rows of some routes, or the least one given if none is higher.
  ghost predicate IsMaxRevision(changes: map<nat, Change>, routes: set<nat>, least: nat, r: nat) {
    && r >= least && (forall route | route in routes && route in changes :: changes[route].revision <= r)
    && (r == least || exists route :: route in routes && route in changes && changes[route].revision == r)
  }

  lemma {:induction false} MaxRevisionExists(changes: map<nat, Change>, routes: set<nat>, least: nat)
    ensures exists r: nat :: IsMaxRevision(changes, routes, least, r)
    decreases |routes|
  {
    if routes == {} {
      assert IsMaxRevision(changes, routes, least, least);
    } else {
      var route :| route in routes;
      MaxRevisionExists(changes, routes - {route}, least);
      var rest: nat :| IsMaxRevision(changes, routes - {route}, least, rest);
      var r := if route in changes && changes[route].revision > rest then changes[route].revision else rest;
      assert IsMaxRevision(changes, routes, least, r);
    }
  }

  ghost function MaxRevision(changes: map<nat, Change>, routes: set<nat>, least: nat): (r: nat)
    ensures IsMaxRevision(changes, routes, least, r)
  {
    MaxRevisionExists(changes, routes, least);
    var r: nat :| IsMaxRevision(changes, routes, least, r);
    r
  }

  // Maintenance of a batch of expired tombstones: rows of routes that are owned again are restored,
  // projected rows of routes that are still gone are removed, and the watermark passes them.
  function Restorable(db: Database, candidates: set<nat>): set<nat> {
    set route | route in candidates && route in db.changes && db.changes[route].deleted && route in db.routes
  }

  function Removable(db: Database, candidates: set<nat>): set<nat> {
    set route | route in candidates && route in db.changes && db.changes[route].deleted &&
                route !in db.routes && !db.dirty && db.changes[route].revision <= db.projected
  }

  function Restored(changes: map<nat, Change>, restored: set<nat>, removed: set<nat>): map<nat, Change> {
    map route | route in changes && route !in removed ::
      if route in restored then changes[route].(deleted := false) else changes[route]
  }

  ghost function Prune(db: Database, candidates: set<nat>): Database {
    var removed := Removable(db, candidates);
    db.(changes := Restored(db.changes, Restorable(db, candidates), removed),
        fullRevision := MaxRevision(db.changes, removed, db.fullRevision))
  }

  // ---- The loader -----------------------------------------------------------------------------------

  ghost predicate SameBase(s: Snapshot, db: Database) {
    s.base == db.base && s.settings.defaults == Effective(db.config).defaults
  }

  ghost predicate SameInput(s: Snapshot, db: Database) {
    SameBase(s, db) && s.settings.rules == Effective(db.config).rules && s.policy == db.policy
  }

  ghost predicate UpToDate(db: Database, previous: Option<Snapshot>) {
    && previous.Some? && !db.dirty
    && previous.value.generation == db.generation && previous.value.revision == db.revision
    && SameInput(previous.value, db)
  }

  ghost predicate Incremental(db: Database, previous: Option<Snapshot>) {
    && previous.Some? && SameBase(previous.value, db)
    && db.fullRevision <= previous.value.revision <= db.revision
    && !(db.dirty && db.revision <= db.projected)
    && !(previous.value.generation != db.generation && previous.value.revision == db.revision)
  }

  ghost function Affected(db: Database, revision: nat): set<nat> {
    set route | route in db.changes && revision < db.changes[route].revision <= db.revision
  }

  // The sparse plans of a build over the assignments of some routes.
  ghost function BuiltPlans(db: Database, routes: set<nat>): map<nat, Plan> {
    map route | route in routes && route in db.routes && FullPlan(db, route).keys != DefaultPlan(db).keys :: FullPlan(db, route)
  }

  ghost function MergedPlans(previous: map<nat, Plan>, patch: map<nat, Plan>, affected: set<nat>): map<nat, Plan> {
    map route | route in previous.Keys + patch.Keys && (if route in affected then route in patch else route in previous) ::
      if route in affected then PatchAt(previous, patch, route).value else previous[route]
  }

  ghost function LoadedDefault(db: Database, previous: Option<Snapshot>): Plan {
    if Incremental(db, previous) then previous.value.default_ else DefaultPlan(db)
  }

  ghost function LoadedPlans(db: Database, previous: Option<Snapshot>): map<nat, Plan> {
    if Incremental(db, previous) then
      var affected := Affected(db, previous.value.revision);
      MergedPlans(previous.value.plans, BuiltPlans(db, affected), affected)
    else
      BuiltPlans(db, db.routes.Keys)
  }

  function PlanAt(default_: Plan, plans: map<nat, Plan>, route: nat): Plan {
    if route in plans then plans[route] else default_
  }

  // The stored rows of a route are exactly the rows its plan asks for.
  ghost predicate RowsMatch(overrides: map<(nat, nat), Row>, default_: Plan, plan: Plan, route: nat) {
    && (forall index: nat | (route, index) in overrides ::
          && index < |plan.keys| && index < |default_.keys| && index < |plan.settings|
          && plan.keys[index] != default_.keys[index]
          && overrides[(route, index)] == Row(plan.keys[index], plan.settings[index].transport))
    && (forall index | 0 <= index < |plan.keys| && index < |default_.keys| && plan.keys[index] != default_.keys[index] ::
          (route, index) in overrides)
  }

  ghost function StoredRoutes(overrides: map<(nat, nat), Row>): set<nat> {
    set k | k in overrides :: k.0
  }

  ghost function Scope(db: Database, previous: Option<Snapshot>, plans: map<nat, Plan>): set<nat> {
    if Incremental(db, previous) then Affected(db, previous.value.revision)
    else StoredRoutes(db.overrides) + plans.Keys
  }

  ghost function Delta(db: Database, scope: set<nat>, default_: Plan, plans: map<nat, Plan>): set<nat> {
    set route | route in scope && !RowsMatch(db.overrides, default_, PlanAt(default_, plans, route), route)
  }

  ghost function NewRowKeys(changed: set<nat>, default_: Plan, plans: map<nat, Plan>): set<(nat, nat)> {
    set route, index | route in changed && route in plans && 0 <= index < 4 && index < |plans[route].keys| &&
                       index < |plans[route].settings| && index < |default_.keys| &&
                       plans[route].keys[index] != default_.keys[index] :: (route, index)
  }

  ghost function Rewrite(overrides: map<(nat, nat), Row>, changed: set<nat>, default_: Plan, plans: map<nat, Plan>): map<(nat, nat), Row> {
    (map k | k in overrides && k.0 !in changed :: overrides[k]) +
    (map k | k in NewRowKeys(changed, default_, plans) :: Row(plans[k.0].keys[k.1], plans[k.0].settings[k.1].transport))
  }

  ghost predicate DefaultChanged(db: Database, previous: Option<Snapshot>) {
    db.generation == 0 || LoadedDefault(db, previous).keys != db.defaultKeys
  }

  ghost function LoadedDelta(db: Database, previous: Option<Snapshot>): set<nat> {
    var default_, plans := LoadedDefault(db, previous), LoadedPlans(db, previous);
    Delta(db, Scope(db, previous, plans), default_, plans)
  }

  // A rebuild that changes something no revision announced must announce it to the other instances.
  ghost predicate Announces(db: Database, previous: Option<Snapshot>) {
    && !Incremental(db, previous) && db.revision == db.projected
    && (DefaultChanged(db, previous) || LoadedDelta(db, previous) != {} || (previous.Some? && !SameBase(previous.value, db)))
  }

  ghost function LoadedRevision(db: Database, previous: Option<Snapshot>): nat {
    if Announces(db, previous) then db.revision + 1 else db.revision
  }

  ghost predicate Writes(db: Database, previous: Option<Snapshot>) {
    DefaultChanged(db, previous) || LoadedDelta(db, previous) != {} || db.dirty || Announces(db, previous)
  }

  ghost function LoadedDatabase(db: Database, previous: Option<Snapshot>): Database {
    if UpToDate(db, previous) || !Writes(db, previous) then db
    else
      var revision := LoadedRevision(db, previous);
      db.(generation := db.generation + 1, dirty := false, projected := revision, revision := revision,
          fullRevision := if Announces(db, previous) then revision else db.fullRevision,
          defaultKeys := LoadedDefault(db, previous).keys,
          overrides := Rewrite(db.overrides, LoadedDelta(db, previous), LoadedDefault(db, previous), LoadedPlans(db, previous)))
  }

  ghost function LoadedSnapshot(db: Database, previous: Option<Snapshot>): Snapshot {
    if UpToDate(db, previous) then previous.value
    else Snapshot(Effective(db.config), db.base, db.policy, LoadedRevision(db, previous),
                  if Writes(db, previous) then db.generation + 1 else db.generation,
                  LoadedDefault(db, previous), LoadedPlans(db, previous))
  }
}
