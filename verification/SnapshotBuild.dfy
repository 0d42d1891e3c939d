// Compiling a workspace's assignments into a sparse snapshot.
module SnapshotBuild {
  import opened Options
  import opened CheckerSettings
  import opened Plans
  import opened ProxyPlans
  import Sorting

  datatype Assignment = Assignment(workspace: nat, route: nat, tag: nat)

  // The tags one workspace assigns to one route, in whatever order they are listed.
  ghost function TagsOf(assignments: seq<Assignment>, workspace: nat, route: nat): set<nat> {
    set k | 0 <= k < |assignments| && assignments[k].route == route && assignments[k].workspace == workspace ::
      assignments[k].tag
  }

  ghost function RoutePlan(settings: Settings, base: Base, tags: set<nat>): Plan {
    Compile(base, Resolve(settings, tags))
  }

  // The keys a sparse snapshot shows for a route: its own plan's, or the default's.
  function SparseKeys(default_: Plan, entries: map<nat, Plan>, route: nat): seq<Key> {
    if route in entries then entries[route].keys else default_.keys
  }

  // Every route shows the keys of resolving its own tags, and only routes that differ are stored.
  ghost predicate ExactSnapshot(settings: Settings, base: Base, tagsOf: nat -> set<nat>, default_: Plan, entries: map<nat, Plan>) {
    && default_ == RoutePlan(settings, base, {})
    && (forall route: nat :: SparseKeys(default_, entries, route) == RoutePlan(settings, base, tagsOf(route)).keys)
    && (forall route | route in entries :: entries[route].keys != default_.keys && entries[route] == RoutePlan(settings, base, tagsOf(route)))
  }

  // Two exact snapshots of the same tag sets store the same plans.
  lemma ExactSnapshotsAgree(settings: Settings, base: Base, tagsOf: nat -> set<nat>,
                            default1: Plan, entries1: map<nat, Plan>, default2: Plan, entries2: map<nat, Plan>)
    requires ExactSnapshot(settings, base, tagsOf, default1, entries1)
    requires ExactSnapshot(settings, base, tagsOf, default2, entries2)
    ensures default1 == default2 && entries1 == entries2
  {
    forall route: nat ensures At(entries1, route) == At(entries2, route) {
      assert SparseKeys(default1, entries1, route) == SparseKeys(default2, entries2, route);
    }
    forall route: nat ensures route in entries1 <==> route in entries2 {
      assert At(entries1, route) == At(entries2, route);
    }
    forall route: nat | route in entries1 ensures entries1[route] == entries2[route] {
      assert At(entries1, route) == At(entries2, route);
    }
  }

  // Tags without a rule never change a plan.
  lemma PlanIgnoresOtherTags(settings: Settings, base: Base, tags: set<nat>)
    ensures RoutePlan(settings, base, tags * RuleTags(settings.rules)) == RoutePlan(settings, base, tags)
  {
    ResolveUsesRuleTags(settings, tags * RuleTags(settings.rules), tags, 0);
  }

  const BY_ROUTE := (a: Assignment, b: Assignment) => a.route <= b.route

  // The memo of the source: every compiled plan is the plan of its settings.
  ghost predicate MemoOk(base: Base, compiled: map<seq<Check>, Plan>) {
    forall resolved | resolved in compiled :: |resolved| == 4 && compiled[resolved] == Compile(base, resolved)
  }

  method CompileOnce(base: Base, compiled: map<seq<Check>, Plan>, resolved: seq<Check>)
    returns (plan: Plan, memo: map<seq<Check>, Plan>)
    requires MemoOk(base, compiled) && |resolved| == 4
    ensures plan == Compile(base, resolved) && MemoOk(base, memo)
  {
    if resolved in compiled {
      return compiled[resolved], compiled;
    }
    plan := CompilePlan(base, resolved);
    memo := compiled[resolved := plan];
  }

  // Reads one route's run of assignments, keeping the tags that have rules.
  method ReadGroup(assignments: seq<Assignment>, workspace: nat, configured: set<nat>, start: nat)
    returns (tags: set<nat>, end: nat)
    requires start < |assignments| && Sorting.Sorted(BY_ROUTE, assignments)
    ensures start < end <= |assignments|
    ensures forall k | start <= k < end :: assignments[k].route == assignments[start].route
    ensures end < |assignments| ==> assignments[start].route < assignments[end].route
    ensures tags == TagsOf(assignments[start..end], workspace, assignments[start].route) * configured
  {
    var route := assignments[start].route;
    tags, end := {}, start;
    while end < |assignments| && assignments[end].route == route
      invariant start <= end <= |assignments|
      invariant forall k | start <= k < end :: assignments[k].route == route
      invariant tags == TagsOf(assignments[start..end], workspace, route) * configured
    {
      var assignment := assignments[end];
      ghost var before := assignments[start..end];
      assert assignments[start..end + 1] == before + [assignment];
      TagsOfAppend(before, assignment, workspace, route);
      if assignment.workspace == workspace && assignment.tag in configured {
        tags := tags + {assignment.tag};
      }
      end := end + 1;
    }
    if end < |assignments| {
      assert BY_ROUTE(assignments[start], assignments[end]);
    }
  }

  lemma TagsOfAppend(assignments: seq<Assignment>, assignment: Assignment, workspace: nat, route: nat)
    ensures TagsOf(assignments + [assignment], workspace, route) ==
            TagsOf(assignments, workspace, route) +
            (if assignment.route == route && assignment.workspace == workspace then {assignment.tag} else {})
  {
    var all := assignments + [assignment];
    assert all[|assignments|] == assignment;
    forall tag | tag in TagsOf(assignments, workspace, route) ensures tag in TagsOf(all, workspace, route) {
      var k :| 0 <= k < |assignments| && assignments[k].route == route && assignments[k].workspace == workspace && assignments[k].tag == tag;
      assert all[k] == assignments[k];
    }
  }

  // A route's group lies wholly inside or wholly outside a prefix that ends at a group boundary.
  lemma TagsOfPrefix(assignments: seq<Assignment>, workspace: nat, start: nat, end: nat, route: nat)
    requires start <= end <= |assignments|
    requires forall k | 0 <= k < start :: assignments[k].route < route
    requires forall k | end <= k < |assignments| :: route < assignments[k].route
    ensures TagsOf(assignments, workspace, route) == TagsOf(assignments[start..end], workspace, route)
  {
    forall tag | tag in TagsOf(assignments, workspace, route) ensures tag in TagsOf(assignments[start..end], workspace, route) {
      var k :| 0 <= k < |assignments| && assignments[k].route == route && assignments[k].workspace == workspace && assignments[k].tag == tag;
      assert assignments[start..end][k - start] == assignments[k];
    }
    forall tag | tag in TagsOf(assignments[start..end], workspace, route) ensures tag in TagsOf(assignments, workspace, route) {
      var k :| 0 <= k < end - start && assignments[start..end][k].route == route &&
               assignments[start..end][k].workspace == workspace && assignments[start..end][k].tag == tag;
      assert assignments[start + k] == assignments[start..end][k];
    }
  }

  lemma TagsOfAnyOrder(a: seq<Assignment>, b: seq<Assignment>, workspace: nat, route: nat)
    requires forall x :: x in a <==> x in b
    ensures TagsOf(a, workspace, route) == TagsOf(b, workspace, route)
  {
    TagsOfIncluded(a, b, workspace, route);
    TagsOfIncluded(b, a, workspace, route);
  }

  lemma TagsOfIncluded(a: seq<Assignment>, b: seq<Assignment>, workspace: nat, route: nat)
    requires forall x | x in a :: x in b
    ensures TagsOf(a, workspace, route) <= TagsOf(b, workspace, route)
  {
    forall tag | tag in TagsOf(a, workspace, route) ensures tag in TagsOf(b, workspace, route) {
      var k :| 0 <= k < |a| && a[k].route == route && a[k].workspace == workspace && a[k].tag == tag;
      assert a[k] in b;
      var m :| 0 <= m < |b| && b[m] == a[k];
    }
  }

  // What the grouping loop has stored once it has read all routes below a bound.
  ghost predicate BuiltBelow(settings: Settings, base: Base, assignments: seq<Assignment>, workspace: nat,
                             start: nat, default_: Plan, entries: map<nat, Plan>)
    requires start <= |assignments|
  {
    forall route: nat ::
      At(entries, route) ==
      (var plan := RoutePlan(settings, base, TagsOf(assignments, workspace, route));
       if (start == |assignments| || route < assignments[start].route) && plan.keys != default_.keys then Some(plan) else None)
  }

  lemma BuiltInitially(settings: Settings, base: Base, assignments: seq<Assignment>, workspace: nat)
    requires Sorting.Sorted(BY_ROUTE, assignments)
    ensures BuiltBelow(settings, base, assignments, workspace, 0, RoutePlan(settings, base, {}), map[])
  {
    forall route: nat | |assignments| == 0 || route < assignments[0].route
      ensures TagsOf(assignments, workspace, route) == {}
    {
      forall k | 0 <= k < |assignments| ensures assignments[k].route != route {
        assert k == 0 || BY_ROUTE(assignments[0], assignments[k]);
      }
    }
  }

  // One group at a time: its own route gets its plan, and the gap to the next group holds no tags.
  lemma BuiltStep(settings: Settings, base: Base, assignments: seq<Assignment>, workspace: nat,
                  start: nat, end: nat, default_: Plan, before: map<nat, Plan>, after: map<nat, Plan>)
    requires Sorting.Sorted(BY_ROUTE, assignments) && start < end <= |assignments|
    requires start > 0 ==> assignments[start - 1].route < assignments[start].route
    requires forall k | start <= k < end :: assignments[k].route == assignments[start].route
    requires end < |assignments| ==> assignments[start].route < assignments[end].route
    requires default_ == RoutePlan(settings, base, {})
    requires BuiltBelow(settings, base, assignments, workspace, start, default_, before)
    requires var plan := RoutePlan(settings, base, TagsOf(assignments[start..end], workspace, assignments[start].route));
             after == if plan.keys != default_.keys then before[assignments[start].route := plan] else before
    ensures BuiltBelow(settings, base, assignments, workspace, end, default_, after)
  {
    var group := assignments[start].route;
    forall k | 0 <= k < start ensures assignments[k].route < group {
      assert k == start - 1 || BY_ROUTE(assignments[k], assignments[start - 1]);
    }
    forall k | end <= k < |assignments| ensures assignments[end].route <= assignments[k].route && group < assignments[k].route {
      assert k == end || BY_ROUTE(assignments[end], assignments[k]);
    }
    TagsOfPrefix(assignments, workspace, start, end, group);
    assert At(before, group) == None;
    forall route: nat | group < route && (end == |assignments| || route < assignments[end].route)
      ensures TagsOf(assignments, workspace, route) == {}
    {
      forall k | 0 <= k < |assignments| ensures assignments[k].route != route {
      }
    }
    forall route: nat ensures
      At(after, route) ==
      (var plan := RoutePlan(settings, base, TagsOf(assignments, workspace, route));
       if (end == |assignments| || route < assignments[end].route) && plan.keys != default_.keys then Some(plan) else None)
    {
      if route != group {
        assert At(after, route) == At(before, route);
      }
    }
  }

  lemma BuiltIsExact(settings: Settings, base: Base, given: seq<Assignment>, assignments: seq<Assignment>, workspace: nat,
                     default_: Plan, entries: map<nat, Plan>)
    requires forall x :: x in given <==> x in assignments
    requires default_ == RoutePlan(settings, base, {})
    requires BuiltBelow(settings, base, assignments, workspace, |assignments|, default_, entries)
    ensures ExactSnapshot(settings, base, route => TagsOf(given, workspace, route), default_, entries)
  {
    var tagsOf := (route: nat) => TagsOf(given, workspace, route);
    forall route: nat
      ensures SparseKeys(default_, entries, route) == RoutePlan(settings, base, tagsOf(route)).keys
      ensures route in entries ==>
              entries[route].keys != default_.keys && entries[route] == RoutePlan(settings, base, tagsOf(route))
    {
      TagsOfAnyOrder(given, assignments, workspace, route);
      var plan := RoutePlan(settings, base, tagsOf(route));
      assert At(entries, route) == if plan.keys != default_.keys then Some(plan) else None;
    }
    assert ExactSnapshot(settings, base, tagsOf, default_, entries);
  }

  // Stores one route's plan if it differs from the default.
  method StorePlan(settings: Settings, base: Base, compiled: map<seq<Check>, Plan>, default_: Plan,
                   plans: ProxyPlans, route: nat, tags: set<nat>)
    returns (memo: map<seq<Check>, Plan>)
    requires plans.Valid() && MemoOk(base, compiled) && default_ == RoutePlan(settings, base, {})
    modifies plans, plans.Objects()
    ensures plans.Valid() && MemoOk(base, memo)
    ensures fresh(plans.Objects() - old(plans.Objects()))
    ensures var plan := RoutePlan(settings, base, tags);
            plans.entries == if plan.keys != default_.keys then old(plans.entries)[route := plan] else old(plans.entries)
  {
    memo := compiled;
    if tags != {} {
      var resolved := ResolveCheckerSettings(settings, tags);
      var plan;
      plan, memo := CompileOnce(base, compiled, resolved);
      if plan.keys != default_.keys {
        plans.Set(route, plan);
      }
    }
  }

  // A cursor that stands at the start of a group.
  ghost predicate AtBoundary(assignments: seq<Assignment>, start: nat) {
    start <= |assignments| && (0 < start < |assignments| ==> assignments[start - 1].route < assignments[start].route)
  }

  method StoreGroup(settings: Settings, base: Base, workspace: nat, assignments: seq<Assignment>, start: nat,
                    compiled: map<seq<Check>, Plan>, default_: Plan, plans: ProxyPlans)
    returns (memo: map<seq<Check>, Plan>, end: nat)
    requires AtBoundary(assignments, start) && start < |assignments| && Sorting.Sorted(BY_ROUTE, assignments)
    requires plans.Valid() && MemoOk(base, compiled) && default_ == RoutePlan(settings, base, {})
    requires BuiltBelow(settings, base, assignments, workspace, start, default_, plans.entries)
    modifies plans, plans.Objects()
    ensures start < end && AtBoundary(assignments, end)
    ensures plans.Valid() && MemoOk(base, memo)
    ensures fresh(plans.Objects() - old(plans.Objects()))
    ensures BuiltBelow(settings, base, assignments, workspace, end, default_, plans.entries)
  {
    ghost var before := plans.entries;
    var tags;
    tags, end := ReadGroup(assignments, workspace, RuleTags(settings.rules), start);
    PlanIgnoresOtherTags(settings, base, TagsOf(assignments[start..end], workspace, assignments[start].route));
    memo := StorePlan(settings, base, compiled, default_, plans, assignments[start].route, tags);
    BuiltStep(settings, base, assignments, workspace, start, end, default_, before, plans.entries);
  }

  method GroupAssignments(given: seq<Assignment>) returns (assignments: seq<Assignment>)
    ensures Sorting.Sorted(BY_ROUTE, assignments) && multiset(assignments) == multiset(given)
  {
    assignments := Sorting.Sort(BY_ROUTE, given);
    Sorting.SortSorts(BY_ROUTE, given);
  }

  method Build(settings: Settings, base: Base, workspace: nat, given: seq<Assignment>)
    returns (default_: Plan, plans: ProxyPlans)
    ensures fresh(plans) && plans.Valid()
    ensures ExactSnapshot(settings, base, route => TagsOf(given, workspace, route), default_, plans.entries)
  {
    var assignments := GroupAssignments(given);
    assert forall x :: x in given <==> x in multiset(assignments);
    plans := new ProxyPlans();
    var compiled: map<seq<Check>, Plan> := map[];
    var resolved := ResolveCheckerSettings(settings, {});
    default_, compiled := CompileOnce(base, compiled, resolved);
    BuiltInitially(settings, base, assignments, workspace);
    var start := 0;
    while start < |assignments|
      invariant AtBoundary(assignments, start)
      invariant fresh(plans) && plans.Valid() && fresh(plans.Objects())
      invariant MemoOk(base, compiled)
      invariant BuiltBelow(settings, base, assignments, workspace, start, default_, plans.entries)
    {
      compiled, start := StoreGroup(settings, base, workspace, assignments, start, compiled, default_, plans);
    }
    BuiltIsExact(settings, base, given, assignments, workspace, default_, plans.entries);
  }
}
