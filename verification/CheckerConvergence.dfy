// Every instance's incremental load equals a full rebuild, in every run.
module CheckerConvergence {
  import opened Options
  import opened CheckerSettings
  import opened Plans
  import opened ProxyPlans
  import opened SnapshotBuild
  import opened RuleChanges
  import opened CheckerRevision
  import opened LegacyDeletion

  // ---- Invariants -----------------------------------------------------------------------------------

  ghost predicate Ordered(db: Database) {
    && db.fullRevision <= db.revision && db.projected <= db.revision
    && (!db.dirty ==> db.projected == db.revision)
    && (forall route | route in db.changes :: db.changes[route].revision <= db.revision)
  }

  // Override rows belong to owned routes and carry the transport of their key.
  ghost predicate RowsFormed(db: Database) {
    && (forall k | k in db.overrides :: k.0 in db.routes && k.1 < 4)
    && (forall k | k in db.overrides :: db.overrides[k].key.Key? ==> db.overrides[k].transport == db.overrides[k].key.transport)
  }

  // The rows of a route are exactly the pairs whose compiled key differs from the default.
  ghost predicate RowsExact(db: Database, route: nat) {
    && (forall index: nat | index < 4 ::
          (route, index) in db.overrides <==> FullPlan(db, route).keys[index] != DefaultPlan(db).keys[index])
    && (forall index: nat | index < 4 && (route, index) in db.overrides ::
          db.overrides[(route, index)].key == FullPlan(db, route).keys[index])
  }

  // A projection no older than the last full refresh is exact outside the routes changed since.
  ghost predicate Projected(db: Database) {
    && db.defaultKeys == DefaultPlan(db).keys
    && forall route: nat :: RowsExact(db, route) || Newer(db, route, db.projected)
  }

  // The watermark w is the stored full-refresh revision, or a later one: dropping the TCP conversion of
  // the defaults changes every route without raising the stored watermark, and then snapshots between the
  // two are told apart by their base signature instead.
  ghost predicate Consistent(db: Database, w: nat) {
    && Ordered(db) && RowsFormed(db) && DistinctTags(db.config.rules)
    && db.fullRevision <= w <= db.revision && (w > db.fullRevision ==> !db.config.legacy)
    && (db.generation == 0 ==> db.overrides == map[])
    && (db.generation > 0 && w <= db.projected ==> Projected(db))
  }

  ghost predicate FormedPlan(base: Base, plan: Plan) {
    |plan.settings| == 4 && plan == Compile(base, plan.settings)
  }

  ghost predicate Formed(s: Snapshot) {
    && FormedPlan(s.base, s.default_)
    && forall route | route in s.plans :: FormedPlan(s.base, s.plans[route])
  }

  // A snapshot no older than the last full refresh is exact outside the routes changed since.
  ghost predicate Current(db: Database, s: Snapshot) {
    && SameBase(s, db) && s.default_ == DefaultPlan(db)
    && forall route: nat :: SnapshotKeys(s, route) == FullPlan(db, route).keys || Newer(db, route, s.revision)
  }

  ghost predicate Tracked(db: Database, w: nat, s: Snapshot) {
    && 1 <= s.generation <= db.generation
    && s.revision <= db.projected
    && (s.generation == db.generation ==> s.revision == db.projected)
    && Formed(s)
    && (s.revision >= w ==> Current(db, s))
    && (db.fullRevision <= s.revision < w ==> !SameBase(s, db))
  }

  // ---- Writers preserve the invariants ----------------------------------------------------------------

  ghost predicate SameRows(a: Database, b: Database, route: nat) {
    forall index: nat | index < 4 ::
      && ((route, index) in a.overrides <==> (route, index) in b.overrides)
      && ((route, index) in a.overrides ==> a.overrides[(route, index)] == b.overrides[(route, index)])
  }

  ghost predicate SameGlobals(db: Database, next: Database) {
    next.base == db.base && Effective(next.config).defaults == Effective(db.config).defaults
  }

  ghost function Watermark(db: Database, w: nat, next: Database): nat {
    if next.fullRevision > w then next.fullRevision
    else if SameGlobals(db, next) then w
    else next.revision
  }

  // What a writer owes the readers: announced routes may change, everything else stays.
  ghost predicate Announced(db: Database, next: Database) {
    && DefaultPlan(next) == DefaultPlan(db) && SameGlobals(db, next)
    && (forall route | route in db.changes && db.changes[route].revision > next.fullRevision ::
          route in next.changes && next.changes[route].revision >= db.changes[route].revision)
    && forall route: nat :: Newer(next, route, db.projected) || Keeps(db, next, route)
  }

  ghost predicate Keeps(db: Database, next: Database, route: nat) {
    FullPlan(next, route).keys == FullPlan(db, route).keys && SameRows(db, next, route)
  }

  ghost predicate WriterFrame(db: Database, w: nat, next: Database) {
    && next.generation == db.generation && next.projected == db.projected && next.defaultKeys == db.defaultKeys
    && db.fullRevision <= next.fullRevision && db.revision <= next.revision
    && Ordered(next) && RowsFormed(next) && DistinctTags(next.config.rules)
    && (db.generation == 0 ==> next.overrides == map[])
    && (SameGlobals(db, next) || next.fullRevision > w || (w == db.fullRevision && db.revision < next.revision))
    && (Watermark(db, w, next) > next.fullRevision ==> !next.config.legacy)
  }

  ghost predicate WriterStep(db: Database, w: nat, next: Database) {
    && WriterFrame(db, w, next)
    && (db.generation > 0 && Watermark(db, w, next) <= db.projected ==> Announced(db, next))
  }

  lemma WriterKeepsConsistent(db: Database, w: nat, next: Database)
    requires Consistent(db, w) && WriterStep(db, w, next)
    ensures Consistent(next, Watermark(db, w, next))
  {
    if next.generation > 0 && Watermark(db, w, next) <= next.projected {
      forall route: nat ensures RowsExact(next, route) || Newer(next, route, next.projected) {
        if !Newer(next, route, db.projected) {
          assert RowsExact(db, route) || Newer(db, route, db.projected);
          assert SameRows(db, next, route);
        }
      }
    }
  }

  lemma WriterKeepsTracked(db: Database, w: nat, next: Database, s: Snapshot)
    requires Consistent(db, w) && WriterStep(db, w, next) && Tracked(db, w, s)
    ensures Tracked(next, Watermark(db, w, next), s)
  {
    if s.revision >= Watermark(db, w, next) {
      forall route: nat ensures SnapshotKeys(s, route) == FullPlan(next, route).keys || Newer(next, route, s.revision) {
        assert SnapshotKeys(s, route) == FullPlan(db, route).keys || Newer(db, route, s.revision);
        assert Newer(next, route, db.projected) || Keeps(db, next, route);
      }
    }
  }

  // ---- Each writer is such a step -----------------------------------------------------------------------

  lemma DefaultPlanByDefaults(a: Settings, b: Settings, base: Base)
    requires a.defaults == b.defaults
    ensures RoutePlan(a, base, {}) == RoutePlan(b, base, {})
  {
    NoTagsApply(a, {}, 0);
    NoTagsApply(b, {}, 0);
  }

  lemma RecordOrdered(changes: map<nat, Change>, routes: set<nat>, revision: nat, deleted: bool)
    requires forall route | route in changes :: changes[route].revision <= revision
    ensures forall route | route in Record(changes, routes, revision, deleted) ::
              Record(changes, routes, revision, deleted)[route].revision <= revision
    ensures forall route | route in changes :: route in Record(changes, routes, revision, deleted) &&
              Record(changes, routes, revision, deleted)[route].revision >= changes[route].revision
    ensures forall route | route in routes :: route in Record(changes, routes, revision, deleted) &&
              Record(changes, routes, revision, deleted)[route].revision == revision
  {
  }

  lemma DisjointSets(a: set<nat>, b: set<nat>)
    requires a * b == {}
    ensures a !! b
  {
    forall x | x in a ensures x !in b {
      assert x in b ==> x in a * b;
    }
  }

  lemma UpdateSettingsRoute(db: Database, w: nat, edit: Edit, route: nat)
    requires Consistent(db, w) && EditAllowed(db, edit)
    requires Watermark(db, w, UpdateSettings(db, edit)) <= db.projected
    ensures Newer(UpdateSettings(db, edit), route, db.projected) || Keeps(db, UpdateSettings(db, edit), route)
  {
    var next := UpdateSettings(db, edit);
    var old_, new_ := Effective(db.config), Effective(next.config);
    EffectiveRules(db.config);
    EffectiveRules(next.config);
    var changed := ChangedTags(old_.rules, new_.rules);
    if route !in Holders(db, changed) {
      assert Tags(db, route) * changed == {};
      DisjointSets(Tags(db, route), changed);
      UntouchedRouteKeepsPlan(old_, new_, Tags(db, route));
    }
  }

  // A writer that only touches routes, rows and change rows, with or without a new revision.
  ghost predicate TablesOnly(db: Database, next: Database) {
    && next.config == db.config && next.base == db.base && next.fullRevision == db.fullRevision
    && next.generation == db.generation && next.projected == db.projected && next.defaultKeys == db.defaultKeys
    && (if next.revision == db.revision then next.dirty == db.dirty else next.revision > db.revision && next.dirty)
    && (forall route | route in next.changes :: next.changes[route].revision <= next.revision)
  }

  lemma TablesFrame(db: Database, w: nat, next: Database)
    requires Consistent(db, w) && TablesOnly(db, next) && RowsFormed(next)
    requires db.generation == 0 ==> next.overrides == map[]
    ensures WriterFrame(db, w, next) && Watermark(db, w, next) == w
  {
  }

  lemma UpdateSettingsFrame(db: Database, w: nat, edit: Edit)
    requires Consistent(db, w) && EditAllowed(db, edit)
    ensures WriterFrame(db, w, UpdateSettings(db, edit))
  {
    hide Record, ChangedHolders, Projected;
    RecordOrdered(db.changes, ChangedHolders(db, edit), db.revision + 1, false);
  }

  lemma UpdateSettingsStep(db: Database, w: nat, edit: Edit)
    requires Consistent(db, w) && EditAllowed(db, edit)
    ensures WriterStep(db, w, UpdateSettings(db, edit))
  {
    var next := UpdateSettings(db, edit);
    UpdateSettingsFrame(db, w, edit);
    if db.generation > 0 && Watermark(db, w, next) <= db.projected {
      DefaultPlanByDefaults(Effective(db.config), Effective(next.config), db.base);
      forall route: nat { UpdateSettingsRoute(db, w, edit, route); }
    }
  }

  // Tags that no rule uses change no plan.
  lemma SameRuleTagsSamePlan(db: Database, next: Database, route: nat)
    requires next.config == db.config && next.base == db.base
    requires Tags(db, route) * RuleTags(Effective(db.config).rules) == Tags(next, route) * RuleTags(Effective(db.config).rules)
    ensures FullPlan(next, route) == FullPlan(db, route)
  {
    PlanIgnoresOtherTags(Effective(db.config), db.base, Tags(db, route));
    PlanIgnoresOtherTags(Effective(db.config), db.base, Tags(next, route));
  }

  lemma SameTagsSamePlan(db: Database, next: Database, route: nat)
    requires next.config == db.config && next.base == db.base && Tags(next, route) == Tags(db, route)
    ensures FullPlan(next, route) == FullPlan(db, route)
  {
  }

  // Changing the tags of some routes: either a rule's tag changed and all of them are recorded, or no
  // rule tag changed anywhere. Routes that are not owned may be listed.
  ghost predicate Retags(db: Database, retagged: map<nat, set<nat>>, tags: set<nat>, routes: set<nat>) {
    && retagged.Keys == db.routes.Keys && routes != {}
    && (forall route | route in db.routes && route !in routes :: retagged[route] == db.routes[route])
    && (forall route | route in db.routes :: (retagged[route] - db.routes[route]) + (db.routes[route] - retagged[route]) <= tags)
  }

  lemma MarkRoute(db: Database, w: nat, retagged: map<nat, set<nat>>, tags: set<nat>, routes: set<nat>, route: nat)
    requires Consistent(db, w) && Retags(db, retagged, tags, routes)
    ensures var next := MarkAssignments(db.(routes := retagged), tags, routes);
            Newer(next, route, db.projected) || Keeps(db, next, route)
  {
    var next := MarkAssignments(db.(routes := retagged), tags, routes);
    var ruleTags := RuleTags(Effective(db.config).rules);
    if route !in routes || route !in db.routes {
      SameTagsSamePlan(db, next, route);
    } else if ruleTags * tags == {} {
      var before, after := db.routes[route], retagged[route];
      forall tag | tag in ruleTags ensures tag in before <==> tag in after {
        assert tag !in tags by { assert tag in tags ==> tag in ruleTags * tags; }
        assert tag !in (after - before) + (before - after);
      }
      assert Tags(db, route) * ruleTags == Tags(next, route) * ruleTags;
      SameRuleTagsSamePlan(db, next, route);
    }
  }

  lemma MarkFrame(db: Database, w: nat, retagged: map<nat, set<nat>>, tags: set<nat>, routes: set<nat>)
    requires Consistent(db, w) && Retags(db, retagged, tags, routes)
    ensures WriterFrame(db, w, MarkAssignments(db.(routes := retagged), tags, routes))
  {
    hide Record, Projected;
    RecordOrdered(db.changes, routes * db.routes.Keys, db.revision + 1, false);
    TablesFrame(db, w, MarkAssignments(db.(routes := retagged), tags, routes));
  }

  lemma MarkStep(db: Database, w: nat, retagged: map<nat, set<nat>>, tags: set<nat>, routes: set<nat>)
    requires Consistent(db, w) && Retags(db, retagged, tags, routes)
    ensures WriterStep(db, w, MarkAssignments(db.(routes := retagged), tags, routes))
  {
    MarkFrame(db, w, retagged, tags, routes);
    RecordOrdered(db.changes, routes * db.routes.Keys, db.revision + 1, false);
    forall route: nat { MarkRoute(db, w, retagged, tags, routes, route); }
  }

  lemma ReplaceTagsStep(db: Database, w: nat, route: nat, tags: set<nat>)
    requires Consistent(db, w)
    ensures WriterStep(db, w, ReplaceTags(db, route, tags))
  {
    if route in db.routes {
      MarkStep(db, w, db.routes[route := tags], (db.routes[route] - tags) + (tags - db.routes[route]), {route});
    }
  }

  lemma AddTagsStep(db: Database, w: nat, routes: set<nat>, tags: set<nat>)
    requires Consistent(db, w)
    ensures WriterStep(db, w, AddTags(db, routes, tags))
  {
    if routes <= db.routes.Keys && routes != {} && tags != {} {
      MarkStep(db, w, WithTags(db.routes, routes, tags), tags, routes);
    }
  }

  lemma ApplySourceTagsStep(db: Database, w: nat, routes: set<nat>, tags: set<nat>, matches: bool)
    requires Consistent(db, w)
    ensures WriterStep(db, w, ApplySourceTags(db, routes, tags, matches))
  {
    var added := if matches then tags else {};
    if routes != {} {
      MarkStep(db, w, WithTags(db.routes, routes, added), tags, routes);
    } else {
      assert WithTags(db.routes, routes, added) == db.routes;
      assert db.(routes := db.routes) == db;
      SameStep(db, w);
    }
  }

  lemma SameStep(db: Database, w: nat)
    requires Consistent(db, w)
    ensures WriterStep(db, w, db)
  {
  }

  // What makes deleting a tag safe for every instance: either the tag has no rule, or the conversion that
  // is dropped shows nowhere, or it changes the defaults and with them the base signature.
  ghost predicate DeletionIsSafe(config: Settings, tag: nat) {
    tag in RuleTags(config.rules) && config.defaults.transport == Tcp ==> DeletionIsLocal(config, tag)
  }

  lemma DeleteTagRoute(db: Database, w: nat, tag: nat, route: nat)
    requires Consistent(db, w) && (tag in RuleTags(db.config.rules) ==> DeletionIsLocal(db.config, tag))
    ensures Newer(DeleteTag(db, tag), route, db.projected) || Keeps(db, DeleteTag(db, tag), route)
  {
    var next := DeleteTag(db, tag);
    var settings := Effective(db.config);
    EffectiveRules(db.config);
    if tag !in RuleTags(settings.rules) {
      assert Tags(db, route) * RuleTags(settings.rules) == Tags(next, route) * RuleTags(settings.rules);
      SameRuleTagsSamePlan(db, next, route);
    } else if tag in Tags(db, route) {
      assert tag in db.routes[route] * {tag};
      assert route in Holders(db, {tag});
    } else {
      assert Tags(next, route) == Tags(db, route);
      LocalDeletionKeepsKeys(db.config, tag, db.base, Tags(db, route));
    }
  }

  lemma DeleteTagFrame(db: Database, w: nat, tag: nat)
    requires Consistent(db, w)
    ensures WriterFrame(db, w, DeleteTag(db, tag))
  {
    RecordOrdered(db.changes, Holders(db, {tag}), db.revision + 1, false);
    WithoutTagKeeps(db.config.rules, tag);
  }

  lemma DeleteTagStep(db: Database, w: nat, tag: nat)
    requires Consistent(db, w) && DeletionIsSafe(db.config, tag)
    ensures WriterStep(db, w, DeleteTag(db, tag))
  {
    var next := DeleteTag(db, tag);
    DeleteTagFrame(db, w, tag);
    if Watermark(db, w, next) <= db.projected {
      assert Effective(next.config).defaults == Effective(db.config).defaults;
      DeleteTagKeepsGlobals(db, w, tag);
      DefaultPlanByDefaults(Effective(db.config), Effective(next.config), db.base);
      forall route: nat { DeleteTagRoute(db, w, tag, route); }
    }
  }

  lemma DeleteTagKeepsGlobals(db: Database, w: nat, tag: nat)
    requires Consistent(db, w) && DeletionIsSafe(db.config, tag) && SameGlobals(db, DeleteTag(db, tag))
    ensures tag in RuleTags(db.config.rules) ==> DeletionIsLocal(db.config, tag)
  {
    EffectiveRules(db.config);
  }

  lemma AddRouteFrame(db: Database, w: nat, route: nat)
    requires Consistent(db, w)
    ensures WriterFrame(db, w, AddRoute(db, route)) && Watermark(db, w, AddRoute(db, route)) == w
  {
    TablesFrame(db, w, AddRoute(db, route));
  }

  lemma AddRouteStep(db: Database, w: nat, route: nat)
    requires Consistent(db, w)
    ensures WriterStep(db, w, AddRoute(db, route))
  {
    AddRouteFrame(db, w, route);
    forall other: nat { SameTagsSamePlan(db, AddRoute(db, route), other); }
  }

  // A deleted route without override or change row showed the default keys before and shows them after.
  lemma DeleteRoutesRoute(db: Database, w: nat, selected: set<nat>, route: nat)
    requires Consistent(db, w) && Projected(db)
    ensures var next := DeleteRoutes(db, selected);
            Newer(next, route, db.projected) || Keeps(db, next, route)
  {
    var next := DeleteRoutes(db, selected);
    var gone := selected * db.routes.Keys;
    var affected := NeedTombstones(db, gone);
    if route !in gone {
      SameTagsSamePlan(db, next, route);
    } else if route in affected {
      assert route in next.changes && next.changes[route].revision == db.revision + 1;
    } else {
      UnrecordedShowsDefault(db, w, route);
      assert forall index: nat | (route, index) in db.overrides :: index in RowsOf(db.overrides, route);
    }
  }

  lemma DropRoutesRows(db: Database, gone: set<nat>)
    requires RowsFormed(db)
    ensures RowsFormed(DropRoutes(db, gone))
    ensures db.overrides == map[] ==> DropRoutes(db, gone).overrides == map[]
  {
  }

  lemma DeleteRoutesFrame(db: Database, w: nat, selected: set<nat>)
    requires Consistent(db, w)
    ensures WriterFrame(db, w, DeleteRoutes(db, selected)) && Watermark(db, w, DeleteRoutes(db, selected)) == w
  {
    hide Record, Projected;
    var gone := selected * db.routes.Keys;
    DropRoutesRows(db, gone);
    RecordOrdered(db.changes, NeedTombstones(db, gone), db.revision + 1, true);
    TablesFrame(db, w, DeleteRoutes(db, selected));
  }

  lemma DeleteRoutesStep(db: Database, w: nat, selected: set<nat>)
    requires Consistent(db, w)
    ensures WriterStep(db, w, DeleteRoutes(db, selected))
  {
    var next := DeleteRoutes(db, selected);
    DeleteRoutesFrame(db, w, selected);
    var affected := NeedTombstones(db, selected * db.routes.Keys);
    RecordOrdered(db.changes, affected, db.revision + 1, true);
    if db.generation > 0 && Watermark(db, w, next) <= db.projected {
      forall route: nat { DeleteRoutesRoute(db, w, selected, route); }
    }
  }

  lemma UnrecordedShowsDefault(db: Database, w: nat, route: nat)
    requires Consistent(db, w) && Projected(db) && route !in db.changes && RowsOf(db.overrides, route) == {}
    ensures FullPlan(db, route).keys == DefaultPlan(db).keys
  {
    assert RowsExact(db, route);
    assert forall index: nat | (route, index) in db.overrides :: index in RowsOf(db.overrides, route);
    assert FullPlan(db, route).keys == DefaultPlan(db).keys;
  }

  // Pruning raises the watermark past every row it removes.
  lemma PruneStep(db: Database, w: nat, candidates: set<nat>)
    requires Consistent(db, w)
    ensures WriterStep(db, w, Prune(db, candidates))
  {
  }

  // ---- The loader ---------------------------------------------------------------------------------------

  lemma UnownedIsDefault(db: Database, route: nat)
    requires route !in db.routes
    ensures FullPlan(db, route) == DefaultPlan(db)
  {
  }

  // Which snapshots a load may start from.
  ghost predicate Loadable(db: Database, w: nat, previous: Option<Snapshot>) {
    Consistent(db, w) && (previous.Some? ==> Tracked(db, w, previous.value))
  }

  lemma BuiltKeys(db: Database, routes: set<nat>, route: nat)
    requires route in routes || route !in db.routes
    ensures SparseKeys(DefaultPlan(db), BuiltPlans(db, routes), route) == FullPlan(db, route).keys
  {
    if route !in db.routes { UnownedIsDefault(db, route); }
  }

  // The heart of the protocol: merging the affected routes into a stale snapshot gives every route
  // the keys of a full rebuild.
  lemma LoadedKeys(db: Database, w: nat, previous: Option<Snapshot>, route: nat)
    requires Loadable(db, w, previous)
    ensures LoadedDefault(db, previous) == DefaultPlan(db)
    ensures SparseKeys(LoadedDefault(db, previous), LoadedPlans(db, previous), route) == FullPlan(db, route).keys
  {
    if Incremental(db, previous) {
      var affected := Affected(db, previous.value.revision);
      if route in affected {
        BuiltKeys(db, affected, route);
      } else {
        assert SnapshotKeys(previous.value, route) == FullPlan(db, route).keys || Newer(db, route, previous.value.revision);
      }
    } else {
      BuiltKeys(db, db.routes.Keys, route);
    }
  }

  lemma LoadedPlansFormed(db: Database, w: nat, previous: Option<Snapshot>, route: nat)
    requires Loadable(db, w, previous) && route in LoadedPlans(db, previous)
    ensures FormedPlan(db.base, LoadedPlans(db, previous)[route])
  {
  }

  // The keys of a formed plan carry its transports.
  lemma FormedKeys(base: Base, plan: Plan, index: nat)
    requires FormedPlan(base, plan) && index < 4
    ensures |plan.keys| == 4 && |plan.settings| == 4
    ensures plan.keys[index].Key? ==> plan.keys[index].transport == plan.settings[index].transport
  {
  }

  lemma RewrittenRow(overrides: map<(nat, nat), Row>, changed: set<nat>, default_: Plan, plans: map<nat, Plan>, route: nat, index: nat)
    requires |default_.keys| == 4 && (route in plans ==> |plans[route].keys| == 4 && |plans[route].settings| == 4)
    ensures var next := Rewrite(overrides, changed, default_, plans);
            if route in changed then
              && ((route, index) in next <==> index < 4 && route in plans && plans[route].keys[index] != default_.keys[index])
              && ((route, index) in next ==> next[(route, index)] == Row(plans[route].keys[index], plans[route].settings[index].transport))
            else
              && ((route, index) in next <==> (route, index) in overrides)
              && ((route, index) in next ==> next[(route, index)] == overrides[(route, index)])
  {
    assert (route, index) in NewRowKeys(changed, default_, plans) <==>
           route in changed && route in plans && index < 4 && plans[route].keys[index] != default_.keys[index];
  }

  lemma LoadedPlanAt(db: Database, w: nat, previous: Option<Snapshot>, route: nat)
    requires Loadable(db, w, previous)
    ensures var plan := PlanAt(LoadedDefault(db, previous), LoadedPlans(db, previous), route);
            FormedPlan(db.base, plan) && plan.keys == FullPlan(db, route).keys && |plan.keys| == 4
  {
    LoadedKeys(db, w, previous, route);
    if route in LoadedPlans(db, previous) { LoadedPlansFormed(db, w, previous, route); }
  }

  // Routes outside the scope of the comparison already have exact rows.
  lemma OutOfScope(db: Database, w: nat, previous: Option<Snapshot>, route: nat)
    requires Loadable(db, w, previous)
    requires route !in Scope(db, previous, LoadedPlans(db, previous))
    ensures RowsExact(db, route)
  {
    LoadedKeys(db, w, previous, route);
    if Incremental(db, previous) {
      assert RowsExact(db, route) || Newer(db, route, db.projected);
    } else {
      assert forall index: nat | (route, index) in db.overrides :: (route, index).0 in StoredRoutes(db.overrides);
    }
  }

  lemma InScopeUnchanged(db: Database, w: nat, previous: Option<Snapshot>, route: nat)
    requires Loadable(db, w, previous)
    requires route in Scope(db, previous, LoadedPlans(db, previous)) && route !in LoadedDelta(db, previous)
    ensures RowsExact(db, route)
  {
    LoadedPlanAt(db, w, previous, route);
    LoadedKeys(db, w, previous, route);
    assert RowsMatch(db.overrides, LoadedDefault(db, previous),
                     PlanAt(LoadedDefault(db, previous), LoadedPlans(db, previous), route), route);
  }

  lemma UnchangedRowsExact(db: Database, w: nat, previous: Option<Snapshot>, route: nat)
    requires Loadable(db, w, previous) && route !in LoadedDelta(db, previous)
    ensures RowsExact(db, route)
  {
    if route in Scope(db, previous, LoadedPlans(db, previous)) {
      InScopeUnchanged(db, w, previous, route);
    } else {
      OutOfScope(db, w, previous, route);
    }
  }

  // Rewriting only the changed routes makes the rows of every route exact.
  lemma LoadedRowsExact(db: Database, w: nat, previous: Option<Snapshot>, route: nat)
    requires Loadable(db, w, previous) && !UpToDate(db, previous)
    ensures RowsExact(LoadedDatabase(db, previous), route)
  {
    var default_, plans := LoadedDefault(db, previous), LoadedPlans(db, previous);
    var changed := LoadedDelta(db, previous);
    var next := LoadedDatabase(db, previous);
    LoadedPlanAt(db, w, previous, route);
    LoadedKeys(db, w, previous, route);
    assert FullPlan(next, route) == FullPlan(db, route) && DefaultPlan(next) == DefaultPlan(db);
    if route !in changed {
      UnchangedRowsExact(db, w, previous, route);
    }
    if Writes(db, previous) {
      forall index: nat | index < 4 { RewrittenRow(db.overrides, changed, default_, plans, route, index); }
    }
  }

  lemma LoadedRowFormed(db: Database, w: nat, previous: Option<Snapshot>, k: (nat, nat))
    requires Loadable(db, w, previous) && k in LoadedDatabase(db, previous).overrides
    ensures k.0 in db.routes && k.1 < 4
    ensures LoadedDatabase(db, previous).overrides[k].key.Key? ==>
            LoadedDatabase(db, previous).overrides[k].transport == LoadedDatabase(db, previous).overrides[k].key.transport
  {
    var default_, plans := LoadedDefault(db, previous), LoadedPlans(db, previous);
    if !UpToDate(db, previous) && Writes(db, previous) {
      LoadedPlanAt(db, w, previous, k.0);
      LoadedKeys(db, w, previous, k.0);
      RewrittenRow(db.overrides, LoadedDelta(db, previous), default_, plans, k.0, k.1);
      if k.0 in LoadedDelta(db, previous) {
        FormedKeys(db.base, plans[k.0], k.1);
        if k.0 !in db.routes { UnownedIsDefault(db, k.0); }
      }
    }
  }

  lemma UpToDateRowsExact(db: Database, w: nat, previous: Option<Snapshot>, route: nat)
    requires Loadable(db, w, previous) && UpToDate(db, previous)
    ensures RowsExact(db, route) && SnapshotKeys(previous.value, route) == FullPlan(db, route).keys
  {
    assert RowsExact(db, route) || Newer(db, route, db.projected);
    assert SnapshotKeys(previous.value, route) == FullPlan(db, route).keys || Newer(db, route, previous.value.revision);
  }

  // What every load establishes, incremental or not: the snapshot and the tables both give every route
  // the keys of a full rebuild, and nothing is pending.
  ghost predicate SettledTotals(db: Database, next: Database, s: Snapshot) {
    && next.generation > 0 && !next.dirty && next.projected == next.revision
    && s.generation == next.generation && s.revision == next.revision
    && next.config == db.config && next.base == db.base && next.routes == db.routes
    && next.defaultKeys == DefaultPlan(db).keys && s.default_ == DefaultPlan(db)
  }

  ghost predicate Settled(db: Database, next: Database, s: Snapshot) {
    && SettledTotals(db, next, s)
    && (forall route: nat :: SnapshotKeys(s, route) == FullPlan(db, route).keys)
    && (forall route: nat :: RowsExact(next, route))
  }

  lemma LoadSettlesTotals(db: Database, w: nat, previous: Option<Snapshot>)
    requires Loadable(db, w, previous)
    ensures SettledTotals(db, LoadedDatabase(db, previous), LoadedSnapshot(db, previous))
  {
    LoadedKeys(db, w, previous, 0);
  }

  lemma LoadSettles(db: Database, w: nat, previous: Option<Snapshot>)
    requires Loadable(db, w, previous)
    ensures Settled(db, LoadedDatabase(db, previous), LoadedSnapshot(db, previous))
  {
    var next, s := LoadedDatabase(db, previous), LoadedSnapshot(db, previous);
    LoadSettlesTotals(db, w, previous);
    forall route: nat ensures SnapshotKeys(s, route) == FullPlan(db, route).keys && RowsExact(next, route) {
      if UpToDate(db, previous) {
        UpToDateRowsExact(db, w, previous, route);
      } else {
        LoadedKeys(db, w, previous, route);
        LoadedRowsExact(db, w, previous, route);
      }
    }
  }

  lemma LoadMonotone(db: Database, w: nat, previous: Option<Snapshot>)
    requires Loadable(db, w, previous)
    ensures var next := LoadedDatabase(db, previous);
            && db.revision <= next.revision && db.projected <= next.projected && db.fullRevision <= next.fullRevision
            && db.generation <= next.generation && Ordered(next) && next.changes == db.changes
            && (db.dirty ==> db.generation < next.generation)
            && (next.fullRevision != db.fullRevision ==> next.fullRevision > db.revision && next.fullRevision == next.revision)
            && (next.generation == db.generation ==> next.projected == db.projected)
  {
  }

  lemma LoadConsistent(db: Database, w: nat, previous: Option<Snapshot>)
    requires Loadable(db, w, previous)
    ensures Consistent(LoadedDatabase(db, previous), Watermark(db, w, LoadedDatabase(db, previous)))
  {
    var next := LoadedDatabase(db, previous);
    LoadSettles(db, w, previous);
    LoadMonotone(db, w, previous);
    forall k | k in next.overrides
      ensures k.0 in next.routes && k.1 < 4
      ensures next.overrides[k].key.Key? ==> next.overrides[k].transport == next.overrides[k].key.transport
    {
      LoadedRowFormed(db, w, previous, k);
    }
    assert DefaultPlan(next) == DefaultPlan(db);
  }

  lemma CurrentDependsOnInputs(db: Database, next: Database, s: Snapshot)
    requires Current(db, s) && next.config == db.config && next.base == db.base
    requires next.routes == db.routes && next.changes == db.changes
    ensures Current(next, s)
  {
    assert DefaultPlan(next) == DefaultPlan(db);
    forall route: nat ensures SnapshotKeys(s, route) == FullPlan(next, route).keys || Newer(next, route, s.revision) {
      assert SnapshotKeys(s, route) == FullPlan(db, route).keys || Newer(db, route, s.revision);
      SameTagsSamePlan(db, next, route);
    }
  }

  lemma LoadKeepsTracked(db: Database, w: nat, previous: Option<Snapshot>, other: Snapshot)
    requires Loadable(db, w, previous) && Tracked(db, w, other)
    ensures Tracked(LoadedDatabase(db, previous), Watermark(db, w, LoadedDatabase(db, previous)), other)
  {
    hide Projected, Rewrite, LoadedDelta, LoadedPlans, LoadedDefault;
    var next := LoadedDatabase(db, previous);
    LoadMonotone(db, w, previous);
    if other.revision >= Watermark(db, w, next) {
      assert Current(db, other);
      CurrentDependsOnInputs(db, next, other);
    }
  }

  lemma LoadTracks(db: Database, w: nat, previous: Option<Snapshot>)
    requires Loadable(db, w, previous)
    ensures Tracked(LoadedDatabase(db, previous), Watermark(db, w, LoadedDatabase(db, previous)), LoadedSnapshot(db, previous))
  {
    var next, s := LoadedDatabase(db, previous), LoadedSnapshot(db, previous);
    if UpToDate(db, previous) {
    } else {
      LoadSettles(db, w, previous);
      LoadedKeys(db, w, previous, 0);
      forall route | route in s.plans ensures FormedPlan(s.base, s.plans[route]) {
        LoadedPlansFormed(db, w, previous, route);
      }
      assert DefaultPlan(next) == DefaultPlan(db);
      forall route: nat ensures SnapshotKeys(s, route) == FullPlan(next, route).keys {
        assert FullPlan(next, route) == FullPlan(db, route);
      }
    }
  }
}
