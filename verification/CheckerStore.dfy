// The transactions that announce, load and prune checker changes, on the stored row and tables.
module CheckerStore {
  import opened Options
  import opened CheckerSettings
  import opened Plans
  import opened ProxyPlans
  import opened SnapshotBuild
  import opened RuleChanges
  import opened CheckerRevision
  import opened Ids
  import opened ProjectionDelta

  // The tag ids of which exactly one of two lists holds a copy; each list is free of duplicates.
  method ChangedProxyTagIDs(before: seq<nat>, after: seq<nat>) returns (changed: set<nat>)
    requires forall i, j | 0 <= i < j < |after| :: after[i] != after[j]
    ensures changed == (Elements(before) - Elements(after)) + (Elements(after) - Elements(before))
  {
    var membership: map<nat, bool> := map[];
    for i := 0 to |before|
      invariant membership.Keys == Elements(before[..i])
      invariant forall id | id in membership :: membership[id]
    {
      assert before[..i + 1] == before[..i] + [before[i]];
      membership := membership[before[i] := true];
    }
    assert before[..|before|] == before;
    for i := 0 to |after|
      invariant membership.Keys == Elements(before) + Elements(after[..i])
      invariant forall id | id in membership :: membership[id] == ((id in before) != (id in after[..i]))
    {
      assert after[..i + 1] == after[..i] + [after[i]];
      assert after[i] !in after[..i];
      membership := membership[after[i] := !(after[i] in membership && membership[after[i]])];
    }
    assert after[..|after|] == after;
    changed := set id | id in membership && membership[id];
  }

  lemma RecordAgain(changes: map<nat, Change>, a: set<nat>, b: set<nat>, revision: nat, deleted: bool)
    ensures Record(Record(changes, a, revision, deleted), b, revision, deleted) == Record(changes, a + b, revision, deleted)
  {
  }

  // Upserts the owned ones of a list, chunk by chunk.
  method RecordProxies(changes: map<nat, Change>, owned: set<nat>, proxies: seq<nat>, revision: nat) returns (after: map<nat, Change>)
    ensures after == Record(changes, Elements(proxies) * owned, revision, false)
  {
    after := changes;
    var start := 0;
    while start < |proxies|
      invariant 0 <= start <= |proxies|
      invariant after == Record(changes, Elements(proxies[..start]) * owned, revision, false)
    {
      var end := if start + DELETE_CHUNK_SIZE < |proxies| then start + DELETE_CHUNK_SIZE else |proxies|;
      var chunk := set p | p in proxies[start..end] && p in owned;
      assert proxies[..end] == proxies[..start] + proxies[start..end];
      assert Elements(proxies[..end]) * owned == Elements(proxies[..start]) * owned + chunk;
      RecordAgain(changes, Elements(proxies[..start]) * owned, chunk, revision, false);
      after := Record(after, chunk, revision, false);
      start := end;
    }
    assert proxies[..|proxies|] == proxies;
  }

  method AnyRuleUses(rules: seq<Rule>, tags: set<nat>) returns (found: bool)
    ensures found <==> RuleTags(rules) * tags != {}
  {
    for i := 0 to |rules|
      invariant forall k | 0 <= k < i :: rules[k].tag !in tags
    {
      if rules[i].tag in tags {
        assert rules[i].tag in RuleTags(rules) * tags;
        return true;
      }
    }
    assert forall tag | tag in RuleTags(rules) :: tag !in tags;
    return false;
  }

  method RecordRuleChanges(changes: map<nat, Change>, routes: map<nat, set<nat>>, tags: set<nat>, revision: nat)
    returns (after: map<nat, Change>)
    ensures after == Record(changes, Holding(routes, tags), revision, false)
  {
    if tags == {} {
      assert Holding(routes, tags) == {};
      return changes;
    }
    after := Record(changes, Holding(routes, tags), revision, false);
  }

  // What a settings edit announces: a full refresh, or the routes that hold a changed rule tag.
  method SettingsImpact(db: Database, edit: Edit) returns (full: bool, changes: map<nat, Change>)
    requires DistinctTags(db.config.rules) && DistinctTags(StoredConfig(db, edit).rules)
    ensures full == NeedsFullRefresh(db, edit)
    ensures changes == if full then db.changes else Record(db.changes, ChangedHolders(db, edit), db.revision + 1, false)
  {
    var config := StoredConfig(db, edit);
    var before := DefaultCheckerSettings(db.config);
    var after := DefaultCheckerSettings(config);
    if before.defaults != after.defaults || db.base.httpsForSocks != edit.base.httpsForSocks || edit.judgesProvided {
      return true, db.changes;
    }
    EffectiveRules(db.config);
    EffectiveRules(config);
    var ids := ChangedCheckerRuleTags(before.rules, after.rules);
    assert Elements(ids) == ChangedTags(before.rules, after.rules);
    changes := RecordRuleChanges(db.changes, db.routes, Elements(ids), db.revision + 1);
    full := false;
  }

  // Deleting a tag writes the profile back only if it held a rule for it.
  method DropRule(config: Settings, tag: nat) returns (after: Settings)
    ensures after == if tag in RuleTags(config.rules) then RemoveRule(config, tag) else config
  {
    WithoutTagShorter(config.rules, tag);
    var rules := KeptRules(config.rules, tag);
    after := if |rules| == |config.rules| then config else Settings(config.defaults, rules, false);
  }

  const SOURCE_TAG_BATCH := 500

  lemma NothingTagged(routes: map<nat, set<nat>>, tags: set<nat>)
    ensures WithTags(routes, {}, tags) == routes
  {
  }

  lemma TaggedTwice(routes: map<nat, set<nat>>, a: set<nat>, b: set<nat>, tags: set<nat>)
    ensures WithTags(WithTags(routes, a, tags), b, tags) == WithTags(routes, a + b, tags)
  {
  }

  class Store {
    var config: Settings
    var base: Base
    var policy: nat
    var routes: map<nat, set<nat>>
    var revision: nat
    var fullRevision: nat
    var projected: nat
    var generation: nat
    var dirty: bool
    var defaultKeys: seq<Key>
    var overrides: map<(nat, nat), Row>
    var changes: map<nat, Change>

    function Contents(): Database
      reads this
    {
      Database(config, base, policy, routes, revision, fullRevision, projected, generation, dirty, defaultKeys, overrides, changes)
    }

    constructor (db: Database)
      ensures Contents() == db
    {
      config, base, policy, routes := db.config, db.base, db.policy, db.routes;
      revision, fullRevision, projected, generation := db.revision, db.fullRevision, db.projected, db.generation;
      dirty, defaultKeys, overrides, changes := db.dirty, db.defaultKeys, db.overrides, db.changes;
    }

    method AnnounceRouteChanges(recorded: map<nat, Change>)
      modifies `revision, `dirty, `changes
      ensures Contents() == old(Contents()).(revision := old(revision) + 1, dirty := true, changes := recorded)
    {
      revision, dirty, changes := revision + 1, true, recorded;
    }

    method AnnounceSettings(edit: Edit)
      requires DistinctTags(config.rules) && DistinctTags(StoredConfig(Contents(), edit).rules)
      modifies `revision, `dirty, `changes, `fullRevision
      ensures Contents() == AnnounceEdit(old(Contents()), edit)
    {
      hide NeedsFullRefresh, ChangedHolders;
      var full, recorded := SettingsImpact(Contents(), edit);
      AnnounceRouteChanges(recorded);
      if full {
        fullRevision := revision;
      }
    }

    // The revision part of the settings transaction.
    method UpdateWorkspaceSettings(edit: Edit)
      requires DistinctTags(config.rules) && DistinctTags(StoredConfig(Contents(), edit).rules)
      modifies this
      ensures Contents() == UpdateSettings(old(Contents()), edit)
    {
      var stored := StoredConfig(Contents(), edit);
      AnnounceSettings(edit);
      config, base, policy := stored, edit.base, edit.policy;
    }

    // Only changes to tags used by checker rules invalidate the projection.
    method MarkCheckerAssignmentsDirty(tags: seq<nat>, proxies: seq<nat>) returns (changed: bool)
      modifies this
      ensures Contents() == MarkAssignments(old(Contents()), Elements(tags), Elements(proxies))
      ensures changed <==> revision != old(revision)
    {
      hide Faulty, Effective, Record;
      if |tags| == 0 || |proxies| == 0 {
        assert |proxies| == 0 ==> Elements(proxies) == {};
        return false;
      }
      assert proxies[0] in Elements(proxies);
      var settings := DefaultCheckerSettings(config);
      changed := AnyRuleUses(settings.rules, Elements(tags));
      if changed {
        revision, dirty := revision + 1, true;
        changes := RecordProxies(changes, routes.Keys, proxies, revision);
      }
    }

    method ReplaceProxyTags(route: nat, tags: seq<nat>, held: seq<nat>) returns (ok: bool)
      requires forall i, j | 0 <= i < j < |tags| :: tags[i] != tags[j]
      requires route in routes ==> routes[route] == Elements(held)
      modifies this
      ensures Contents() == ReplaceTags(old(Contents()), route, Elements(tags))
      ensures ok <==> route in old(routes)
    {
      if route !in routes { return false; }
      var changed := ChangedProxyTagIDs(held, tags);
      var ids := AppendTags([], changed);
      assert Elements(ids) == changed;
      assert Elements([route]) == {route};
      routes := routes[route := Elements(tags)];
      var _ := MarkCheckerAssignmentsDirty(ids, [route]);
      return true;
    }

    method AddProxyTagsToProxies(proxies: seq<nat>, tags: seq<nat>) returns (ok: bool)
      modifies this
      ensures Contents() == AddTags(old(Contents()), Elements(proxies), Elements(tags))
    {
      var all := Elements(proxies);
      var added := Elements(tags);
      if |proxies| == 0 || |tags| == 0 {
        assert all == {} || added == {};
        return true;
      }
      assert proxies[0] in all && tags[0] in added;
      if !(all <= routes.Keys) { return false; }
      routes := WithTags(routes, all, added);
      var _ := MarkCheckerAssignmentsDirty(tags, proxies);
      return true;
    }

    // One workspace's part in tagging what a scrape source found: in batches, then the announcement of all of it.
    method ApplyScrapeSourceTags(found: seq<nat>, tags: seq<nat>, matches: bool) returns (changed: bool)
      modifies this
      ensures Contents() == ApplySourceTags(old(Contents()), Elements(found), Elements(tags), matches)
      ensures changed <==> revision != old(revision)
    {
      hide WithTags, MarkAssignments;
      ghost var db := Contents();
      var added := if matches then Elements(tags) else {};
      NothingTagged(db.routes, added);
      assert Elements(found[..0]) == {} && Contents() == db.(routes := db.routes);
      var start := 0;
      while start < |found|
        invariant 0 <= start <= |found|
        invariant Contents() == db.(routes := WithTags(db.routes, Elements(found[..start]), added))
      {
        var end := if start + SOURCE_TAG_BATCH < |found| then start + SOURCE_TAG_BATCH else |found|;
        assert Elements(found[..end]) == Elements(found[..start]) + Elements(found[start..end]) by {
          assert found[..end] == found[..start] + found[start..end];
        }
        TaggedTwice(db.routes, Elements(found[..start]), Elements(found[start..end]), added);
        routes := WithTags(routes, Elements(found[start..end]), added);
        start := end;
      }
      assert found[..|found|] == found;
      changed := MarkCheckerAssignmentsDirty(tags, found);
    }

    method DeleteProxyTag(tag: nat)
      modifies this
      ensures Contents() == DeleteTag(old(Contents()), tag)
    {
      hide Effective, Record, WithoutOneTag, RemoveRule;
      var settings := DefaultCheckerSettings(config);
      EffectiveRules(config);
      var stored := DropRule(config, tag);
      var found := AnyRuleUses(settings.rules, {tag});
      assert tag in RuleTags(settings.rules) ==> tag in RuleTags(settings.rules) * {tag};
      if found {
        var recorded := RecordRuleChanges(changes, routes, {tag}, revision + 1);
        AnnounceRouteChanges(recorded);
      }
      routes, config := WithoutOneTag(routes, tag), stored;
    }

    method DropOwned(gone: set<nat>)
      modifies this
      ensures Contents() == DropRoutes(old(Contents()), gone)
    {
      var left := DropRoutes(Contents(), gone);
      routes, overrides := left.routes, left.overrides;
    }

    // One statement, which reads the tables as they were: ownership rows go, taking assignments and
    // overrides with them, and tombstones are recorded for the routes that some snapshot may know.
    method DeleteManagedRoutes(proxies: seq<nat>) returns (removed: nat, changed: bool)
      modifies this
      ensures Contents() == DeleteRoutes(old(Contents()), Elements(proxies))
      ensures removed == |Elements(proxies) * old(routes).Keys| && (changed <==> revision != old(revision))
    {
      hide NeedTombstones, Record;
      ghost var db := Contents();
      var gone := Elements(proxies) * routes.Keys;
      var affected := NeedTombstones(Contents(), gone);
      DropOwned(gone);
      assert Contents() == DropRoutes(db, gone);
      if affected != {} {
        AnnounceRouteChanges(Record(changes, affected, revision + 1, true));
      }
      return |gone|, affected != {};
    }

    // The row and the override table after a projection.
    method Project(at: nat, full: nat, keys: seq<Key>, rows: map<(nat, nat), Row>)
      modifies this
      ensures Contents() == old(Contents()).(generation := old(generation) + 1, dirty := false, projected := at, revision := at,
                                             fullRevision := full, defaultKeys := keys, overrides := rows)
    {
      generation, dirty := generation + 1, false;
      projected, revision, fullRevision := at, at, full;
      defaultKeys, overrides := keys, rows;
    }

    // Tombstones of a batch of expired candidates; the watermark passes the rows that are removed.
    method PruneDeletedCheckerRoutes(candidates: set<nat>) returns (count: nat)
      modifies this
      ensures Contents() == Prune(old(Contents()), candidates)
      ensures count == |Removable(old(Contents()), candidates)|
    {
      var db := Contents();
      var restored := Restorable(db, candidates);
      var removed := Removable(db, candidates);
      var last := LastRevision(db.changes, removed, db.fullRevision);
      changes, fullRevision := Restored(db.changes, restored, removed), last;
      count := |removed|;
    }
  }

  method LastRevision(changes: map<nat, Change>, removed: set<nat>, least: nat) returns (last: nat)
    ensures last == MaxRevision(changes, removed, least)
  {
    last := least;
    var left := removed;
    while left != {}
      invariant left <= removed && last >= least
      invariant forall route | route in removed - left && route in changes :: changes[route].revision <= last
      invariant last == least || exists route :: route in removed && route in changes && changes[route].revision == last
      decreases |left|
    {
      var route :| route in left;
      if route in changes && changes[route].revision > last {
        last := changes[route].revision;
      }
      left := left - {route};
    }
  }
}
