// Finding the routes whose persisted rows differ from a snapshot, and rewriting only those.
module ProjectionDelta {
  import opened Options
  import opened CheckerSettings
  import opened Plans
  import opened CheckerRevision
  import opened Ids

  const DELETE_CHUNK_SIZE := 5000

  predicate Complete(plan: Plan) {
    |plan.keys| == 4 && |plan.settings| == 4
  }

  ghost predicate AllComplete(default_: Plan, plans: map<nat, Plan>) {
    Complete(default_) && forall route | route in plans :: Complete(plans[route])
  }

  // The protocols whose key differs from the default, which is what the override rows are for.
  function DiffMask(default_: Plan, plan: Plan): Mask
    requires Complete(default_) && Complete(plan)
  {
    Mask(plan.keys[0] != default_.keys[0], plan.keys[1] != default_.keys[1],
         plan.keys[2] != default_.keys[2], plan.keys[3] != default_.keys[3])
  }

  function MaskAt(remaining: map<nat, Mask>, route: nat): Mask {
    if route in remaining then remaining[route] else EMPTY_MASK
  }

  function IndexBit(index: nat): Mask {
    Mask(index == 0, index == 1, index == 2, index == 3)
  }

  ghost function SeenMask(seen: set<(nat, nat)>, route: nat): Mask {
    Mask((route, 0) in seen, (route, 1) in seen, (route, 2) in seen, (route, 3) in seen)
  }

  // A persisted row that its route's plan does not ask for.
  predicate BadRow(default_: Plan, plans: map<nat, Plan>, k: (nat, nat), row: Row)
    requires Complete(default_) && Complete(PlanAt(default_, plans, k.0))
  {
    var plan := PlanAt(default_, plans, k.0);
    k.1 >= 4 || plan.keys[k.1] == default_.keys[k.1] || plan.keys[k.1] != row.key || plan.settings[k.1].transport != row.transport
  }

  ghost predicate SeenBadRow(overrides: map<(nat, nat), Row>, default_: Plan, plans: map<nat, Plan>, seen: set<(nat, nat)>, route: nat)
    requires AllComplete(default_, plans)
  {
    exists index: nat :: (route, index) in seen && (route, index) in overrides && BadRow(default_, plans, (route, index), overrides[(route, index)])
  }

  // The protocols each listed route still needs a row for.
  method NeededRows(default_: Plan, plans: map<nat, Plan>, ids: set<nat>) returns (remaining: map<nat, Mask>)
    requires AllComplete(default_, plans)
    ensures remaining.Keys <= ids
    ensures forall route :: MaskAt(remaining, route) == if route in ids then DiffMask(default_, PlanAt(default_, plans, route)) else EMPTY_MASK
  {
    remaining := map[];
    var left := ids;
    while left != {}
      invariant left <= ids && remaining.Keys <= ids - left
      invariant forall route :: MaskAt(remaining, route) ==
                  if route in ids - left then DiffMask(default_, PlanAt(default_, plans, route)) else EMPTY_MASK
      decreases |left|
    {
      var id :| id in left;
      if id in plans {
        var mask := DiffMask(default_, plans[id]);
        if mask != EMPTY_MASK {
          remaining := remaining[id := mask];
        }
      }
      left := left - {id};
    }
  }

  ghost predicate Compared(overrides: map<(nat, nat), Row>, default_: Plan, plans: map<nat, Plan>, needed: map<nat, Mask>,
                           seen: set<(nat, nat)>, remaining: map<nat, Mask>, changed: set<nat>)
    requires AllComplete(default_, plans)
  {
    && (forall route :: MaskAt(remaining, route) == Without(MaskAt(needed, route), SeenMask(seen, route)))
    && (forall route :: route in changed <==> SeenBadRow(overrides, default_, plans, seen, route))
  }

  method CompareRow(default_: Plan, plans: map<nat, Plan>, k: (nat, nat), row: Row, remaining: map<nat, Mask>, changed: set<nat>)
    returns (left: map<nat, Mask>, now: set<nat>)
    requires AllComplete(default_, plans)
    ensures now == if BadRow(default_, plans, k, row) then changed + {k.0} else changed
    ensures forall route :: MaskAt(left, route) ==
              if route == k.0 then Without(MaskAt(remaining, route), IndexBit(k.1)) else MaskAt(remaining, route)
  {
    left, now := remaining, changed;
    if k.1 >= 4 {
      now := now + {k.0};
      return;
    }
    var plan := PlanAt(default_, plans, k.0);
    if plan.keys[k.1] == default_.keys[k.1] || plan.keys[k.1] != row.key || plan.settings[k.1].transport != row.transport {
      now := now + {k.0};
    }
    left := left[k.0 := Without(MaskAt(left, k.0), IndexBit(k.1))];
  }

  method CompareRows(overrides: map<(nat, nat), Row>, default_: Plan, plans: map<nat, Plan>, rows: set<(nat, nat)>, needed: map<nat, Mask>)
    returns (remaining: map<nat, Mask>, changed: set<nat>)
    requires AllComplete(default_, plans) && rows <= overrides.Keys
    ensures Compared(overrides, default_, plans, needed, rows, remaining, changed)
  {
    remaining, changed := needed, {};
    var left := rows;
    while left != {}
      invariant left <= rows
      invariant Compared(overrides, default_, plans, needed, rows - left, remaining, changed)
      decreases |left|
    {
      var k :| k in left;
      var after, now := CompareRow(default_, plans, k, overrides[k], remaining, changed);
      assert rows - (left - {k}) == rows - left + {k};
      remaining, changed, left := after, now, left - {k};
    }
    assert rows - {} == rows;
  }

  method AddUnmet(remaining: map<nat, Mask>, changed: set<nat>) returns (all: set<nat>)
    ensures forall route :: route in all <==> route in changed || MaskAt(remaining, route) != EMPTY_MASK
  {
    all := changed;
    var left := remaining.Keys;
    while left != {}
      invariant left <= remaining.Keys
      invariant forall route :: route in all <==> route in changed || (route !in left && MaskAt(remaining, route) != EMPTY_MASK)
      decreases |left|
    {
      var id :| id in left;
      if remaining[id] != EMPTY_MASK {
        all := all + {id};
      }
      left := left - {id};
    }
  }

  // What the two passes together say about one route: its rows are not exactly those of its plan.
  lemma ComparedMeans(overrides: map<(nat, nat), Row>, default_: Plan, plans: map<nat, Plan>, needed: map<nat, Mask>,
                      seen: set<(nat, nat)>, remaining: map<nat, Mask>, changed: set<nat>, route: nat)
    requires AllComplete(default_, plans)
    requires Compared(overrides, default_, plans, needed, seen, remaining, changed)
    requires MaskAt(needed, route) == DiffMask(default_, PlanAt(default_, plans, route))
    requires seen <= overrides.Keys && forall index: nat | (route, index) in overrides :: (route, index) in seen
    ensures route in changed || MaskAt(remaining, route) != EMPTY_MASK <==>
            !RowsMatch(overrides, default_, PlanAt(default_, plans, route), route)
  {
    var plan := PlanAt(default_, plans, route);
    assert MaskAt(remaining, route) == Without(DiffMask(default_, plan), SeenMask(seen, route));
    if SeenBadRow(overrides, default_, plans, seen, route) {
      var index: nat :| (route, index) in seen && (route, index) in overrides && BadRow(default_, plans, (route, index), overrides[(route, index)]);
      assert !RowsMatch(overrides, default_, plan, route);
    } else {
      forall index: nat | (route, index) in overrides ensures !BadRow(default_, plans, (route, index), overrides[(route, index)]) {
      }
    }
  }

  // An incremental load compares the affected routes, a cold one every stored row and every sparse plan.
  method CheckerProjectionDelta(db: Database, default_: Plan, plans: map<nat, Plan>, affected: set<nat>, incremental: bool)
    returns (changed: set<nat>)
    requires AllComplete(default_, plans)
    ensures changed == Delta(db, if incremental then affected else StoredRoutes(db.overrides) + plans.Keys, default_, plans)
  {
    ghost var scope := if incremental then affected else StoredRoutes(db.overrides) + plans.Keys;
    var needed := NeededRows(default_, plans, if incremental then affected else plans.Keys);
    var rows := set k | k in db.overrides && (incremental ==> k.0 in affected);
    var remaining, bad := CompareRows(db.overrides, default_, plans, rows, needed);
    changed := AddUnmet(remaining, bad);
    forall route ensures route in changed <==> route in Delta(db, scope, default_, plans) {
      if route in scope {
        forall index: nat | (route, index) in db.overrides ensures (route, index) in rows {
          assert (route, index).0 in StoredRoutes(db.overrides);
        }
        ComparedMeans(db.overrides, default_, plans, needed, rows, remaining, bad, route);
      }
    }
  }

  // ---- Rewriting ------------------------------------------------------------------------------------------

  // The rows of one route, for the protocols below a bound.
  ghost predicate WritesRow(default_: Plan, plans: map<nat, Plan>, route: nat, bound: nat, index: nat)
    requires AllComplete(default_, plans)
  {
    route in plans && index < bound && index < 4 && plans[route].keys[index] != default_.keys[index]
  }

  ghost function RowAt(plans: map<nat, Plan>, k: (nat, nat)): Row
    requires k.0 in plans && k.1 < |plans[k.0].keys| && k.1 < |plans[k.0].settings|
  {
    Row(plans[k.0].keys[k.1], plans[k.0].settings[k.1].transport)
  }

  method CreateRows(overrides: map<(nat, nat), Row>, default_: Plan, plans: map<nat, Plan>, route: nat) returns (after: map<(nat, nat), Row>)
    requires AllComplete(default_, plans)
    ensures forall k :: k in after <==> (k.0 == route && WritesRow(default_, plans, route, 4, k.1)) || k in overrides
    ensures forall k | k in after :: after[k] == if k.0 == route && WritesRow(default_, plans, route, 4, k.1) then RowAt(plans, k) else overrides[k]
  {
    after := overrides;
    if route in plans {
      var plan := plans[route];
      for i := 0 to 4
        invariant forall k :: k in after <==> (k.0 == route && WritesRow(default_, plans, route, i, k.1)) || k in overrides
        invariant forall k | k in after :: after[k] == if k.0 == route && WritesRow(default_, plans, route, i, k.1) then RowAt(plans, k) else overrides[k]
      {
        if plan.keys[i] != default_.keys[i] {
          after := after[(route, i) := Row(plan.keys[i], plan.settings[i].transport)];
        }
      }
    }
  }

  // The rows once the routes of a set have been rewritten.
  ghost predicate Rewritten(overrides: map<(nat, nat), Row>, done: set<nat>, default_: Plan, plans: map<nat, Plan>, after: map<(nat, nat), Row>)
    requires AllComplete(default_, plans)
  {
    && (forall k :: k in after <==> if k.0 in done then WritesRow(default_, plans, k.0, 4, k.1) else k in overrides)
    && (forall k | k in after :: after[k] == if k.0 in done then RowAt(plans, k) else overrides[k])
  }

  // Deletes the rows of a chunk of routes and writes the ones their plans ask for.
  method RewriteChunk(overrides: map<(nat, nat), Row>, ghost before: map<(nat, nat), Row>, ghost done: set<nat>,
                      default_: Plan, plans: map<nat, Plan>, chunk: seq<nat>) returns (after: map<(nat, nat), Row>)
    requires AllComplete(default_, plans) && Rewritten(before, done, default_, plans, overrides)
    ensures Rewritten(before, done + Elements(chunk), default_, plans, after)
  {
    after := map k | k in overrides && k.0 !in chunk :: overrides[k];
    for n := 0 to |chunk|
      invariant forall k :: k in after <==>
                  (k.0 in chunk[..n] && WritesRow(default_, plans, k.0, 4, k.1)) || (k.0 !in chunk && k in overrides)
      invariant forall k | k in after :: after[k] == if k.0 in chunk then RowAt(plans, k) else overrides[k]
    {
      assert chunk[..n + 1] == chunk[..n] + [chunk[n]];
      after := CreateRows(after, default_, plans, chunk[n]);
    }
    assert chunk[..|chunk|] == chunk;
  }

  lemma RewrittenIsRewrite(overrides: map<(nat, nat), Row>, changed: set<nat>, default_: Plan, plans: map<nat, Plan>, after: map<(nat, nat), Row>)
    requires AllComplete(default_, plans) && Rewritten(overrides, changed, default_, plans, after)
    ensures after == Rewrite(overrides, changed, default_, plans)
  {
    var spec := Rewrite(overrides, changed, default_, plans);
    forall k ensures k in after <==> k in spec {
      assert k in NewRowKeys(changed, default_, plans) <==> k.0 in changed && WritesRow(default_, plans, k.0, 4, k.1);
    }
    forall k | k in after ensures after[k] == spec[k] {
      assert k in NewRowKeys(changed, default_, plans) <==> k.0 in changed && WritesRow(default_, plans, k.0, 4, k.1);
    }
  }

  method RewriteRows(overrides: map<(nat, nat), Row>, default_: Plan, plans: map<nat, Plan>, ids: seq<nat>) returns (after: map<(nat, nat), Row>)
    requires AllComplete(default_, plans)
    ensures after == Rewrite(overrides, Elements(ids), default_, plans)
  {
    after := overrides;
    var start := 0;
    while start < |ids|
      invariant 0 <= start <= |ids|
      invariant Rewritten(overrides, Elements(ids[..start]), default_, plans, after)
    {
      var end := if start + DELETE_CHUNK_SIZE < |ids| then start + DELETE_CHUNK_SIZE else |ids|;
      assert ids[..end] == ids[..start] + ids[start..end];
      assert Elements(ids[..end]) == Elements(ids[..start]) + Elements(ids[start..end]);
      after := RewriteChunk(after, overrides, Elements(ids[..start]), default_, plans, ids[start..end]);
      start := end;
    }
    assert ids[..|ids|] == ids;
    RewrittenIsRewrite(overrides, Elements(ids), default_, plans, after);
  }
}
