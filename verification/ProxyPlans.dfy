// Sharded sparse plans with copy-on-write merging.
module ProxyPlans {
  import opened Options
  import opened Plans

  const SHARD_COUNT: nat := 4096

  function ShardOf(id: nat): (index: nat)
    ensures index < SHARD_COUNT
  {
    id % SHARD_COUNT
  }

  function At(entries: map<nat, Plan>, id: nat): Option<Plan> {
    if id in entries then Some(entries[id]) else None
  }

  // What a merge leaves at a listed route: the patch, but with the previous plan object kept where the
  // keys did not change.
  function PatchAt(before: map<nat, Plan>, patch: map<nat, Plan>, id: nat): Option<Plan> {
    if id !in patch then None
    else if id in before && before[id].keys == patch[id].keys then Some(before[id])
    else Some(patch[id])
  }

  function MergedAt(before: map<nat, Plan>, patch: map<nat, Plan>, ids: seq<nat>, id: nat): Option<Plan> {
    if id in ids then PatchAt(before, patch, id) else At(before, id)
  }

  ghost predicate IsMerge(before: map<nat, Plan>, patch: map<nat, Plan>, ids: seq<nat>, after: map<nat, Plan>) {
    forall id :: At(after, id) == MergedAt(before, patch, ids, id)
  }

  // The entries of one shard.
  ghost function Slice(entries: map<nat, Plan>, index: nat): map<nat, Plan> {
    map id | id in entries && ShardOf(id) == index :: entries[id]
  }

  lemma SliceUpdate(entries: map<nat, Plan>, id: nat, plan: Plan, index: nat)
    ensures Slice(entries[id := plan], index) ==
            if index == ShardOf(id) then Slice(entries, index)[id := plan] else Slice(entries, index)
  {
  }

  lemma SliceRemove(entries: map<nat, Plan>, id: nat, index: nat)
    ensures Slice(entries - {id}, index) == Slice(entries, index) - {id}
    ensures index != ShardOf(id) ==> Slice(entries, index) - {id} == Slice(entries, index)
  {
  }

  // One reference-typed map of the source.
  class Shard {
    var routes: map<nat, Plan>

    constructor (routes: map<nat, Plan>)
      ensures this.routes == routes
    {
      this.routes := routes;
    }
  }

  ghost function Routes(shard: Shard?): map<nat, Plan>
    reads shard
  {
    if shard == null then map[] else shard.routes
  }

  // The shard array is a value in the source, the shards it holds are references.
  class ProxyPlans {
    var shards: seq<Shard?>
    var count: nat
    ghost var entries: map<nat, Plan>

    ghost predicate Valid()
      reads this, shards
    {
      && |shards| == SHARD_COUNT
      && (forall i, j | 0 <= i < j < SHARD_COUNT && shards[i] != null :: shards[i] != shards[j])
      && (forall i | 0 <= i < SHARD_COUNT :: Routes(shards[i]) == Slice(entries, i))
      && count == |entries|
    }

    // The shard objects.
    ghost function Objects(): set<Shard>
      reads this
    {
      set i | 0 <= i < |shards| && shards[i] != null :: shards[i]
    }

    constructor ()
      ensures Valid() && entries == map[] && Objects() == {}
      ensures forall i | 0 <= i < SHARD_COUNT :: shards[i] == null
    {
      shards := seq(SHARD_COUNT, _ => null);
      count := 0;
      entries := map[];
      new;
      forall i | 0 <= i < SHARD_COUNT ensures Routes(shards[i]) == Slice(entries, i) {
      }
    }

    // Starts from another snapshot's shards; nothing is cloned yet.
    constructor Copy(previous: ProxyPlans)
      requires previous.Valid()
      ensures Valid() && entries == previous.entries && shards == previous.shards
    {
      shards := previous.shards;
      count := previous.count;
      entries := previous.entries;
    }

    function Get(id: nat): (plan: Option<Plan>)
      requires Valid()
      reads this, shards
      ensures plan == At(entries, id)
    {
      var shard := shards[ShardOf(id)];
      assert Routes(shard) == Slice(entries, ShardOf(id));
      assert id in Routes(shard) ==> Slice(entries, ShardOf(id))[id] == entries[id];
      if shard != null && id in shard.routes then Some(shard.routes[id]) else None
    }

    function Len(): (n: nat)
      requires Valid()
      reads this, shards
      ensures n == |entries|
    {
      count
    }

    // Visits every entry, shard by shard.
    method Range() returns (all: map<nat, Plan>)
      requires Valid()
      ensures all == entries
    {
      all := map[];
      for i := 0 to SHARD_COUNT
        invariant all == map id | id in entries && ShardOf(id) < i :: entries[id]
      {
        var shard := shards[i];
        assert Routes(shard) == Slice(entries, i);
        if shard != null {
          all := all + shard.routes;
        }
        assert forall id :: id in all <==> id in entries && ShardOf(id) < i + 1;
      }
    }

    // Used only while a snapshot is being built, when nothing shares its shards.
    method Set(id: nat, plan: Plan)
      requires Valid()
      modifies this, Objects()
      ensures Valid() && fresh(Objects() - old(Objects()))
      ensures entries == old(entries)[id := plan]
    {
      var index := ShardOf(id);
      if shards[index] == null {
        var created := new Shard(map[]);
        shards := shards[index := created];
      }
      Put(this, id, plan);
    }
  }

  ghost function Entries(plans: ProxyPlans?): map<nat, Plan>
    reads plans
  {
    if plans == null then map[] else plans.entries
  }

  function Lookup(plans: ProxyPlans?, id: nat): (plan: Option<Plan>)
    requires plans != null ==> plans.Valid()
    reads plans, if plans == null then [] else plans.shards
    ensures plan == At(Entries(plans), id)
  {
    if plans == null then None else plans.Get(id)
  }

  method Erase(next: ProxyPlans, id: nat)
    requires next.Valid() && id in next.entries
    modifies next`count, next`entries, next.shards[ShardOf(id)]
    ensures next.Valid() && next.entries == old(next.entries) - {id}
  {
    var shard := next.shards[ShardOf(id)];
    ghost var before := next.entries;
    assert Routes(shard) == Slice(before, ShardOf(id));
    shard.routes := shard.routes - {id};
    next.entries := before - {id};
    assert before.Keys == next.entries.Keys + {id};
    next.count := next.count - 1;
    forall i { SliceRemove(before, id, i); }
  }

  method Put(next: ProxyPlans, id: nat, plan: Plan)
    requires next.Valid() && next.shards[ShardOf(id)] != null
    modifies next`count, next`entries, next.shards[ShardOf(id)]
    ensures next.Valid() && next.entries == old(next.entries)[id := plan]
  {
    var shard := next.shards[ShardOf(id)];
    ghost var before := next.entries;
    assert Routes(shard) == Slice(before, ShardOf(id));
    if id !in shard.routes {
      next.count := next.count + 1;
    }
    shard.routes := shard.routes[id := plan];
    next.entries := before[id := plan];
    forall i { SliceUpdate(before, id, plan, i); }
  }

  // Writes one entry; only its shard and the snapshot itself change.
  method Write(next: ProxyPlans, id: nat, after: Option<Plan>)
    requires next.Valid() && next.shards[ShardOf(id)] != null
    requires after.None? ==> id in next.entries
    modifies next`count, next`entries, next.shards[ShardOf(id)]
    ensures next.Valid()
    ensures next.entries == if after.None? then old(next.entries) - {id} else old(next.entries)[id := after.value]
  {
    if after.None? {
      Erase(next, id);
    } else {
      Put(next, id, after.value);
    }
  }

  // Gives a snapshot its own copy of a shard it still shares.
  method CloneShard(next: ProxyPlans, index: nat)
    requires next.Valid() && index < SHARD_COUNT
    modifies next`shards
    ensures next.Valid()
    ensures next.shards[index] != null && fresh(next.shards[index]) && next.shards == old(next.shards)[index := next.shards[index]]
  {
    var shared := next.shards[index];
    var cloned := new Shard(if shared == null then map[] else shared.routes);
    next.shards := next.shards[index := cloned];
  }

  ghost function SharedShard(previous: ProxyPlans?, index: nat): Shard?
    requires previous != null ==> |previous.shards| == SHARD_COUNT
    requires index < SHARD_COUNT
    reads previous
  {
    if previous == null then null else previous.shards[index]
  }

  method StartMerge(previous: ProxyPlans?) returns (next: ProxyPlans)
    requires previous != null ==> previous.Valid()
    ensures fresh(next) && next.Valid() && next.entries == Entries(previous)
    ensures forall i | 0 <= i < SHARD_COUNT :: next.shards[i] == SharedShard(previous, i)
  {
    if previous == null {
      next := new ProxyPlans();
    } else {
      next := new ProxyPlans.Copy(previous);
    }
  }

  // The shards at the copied indexes are the merge's own; all others are still the previous snapshot's.
  ghost predicate Cloned(next: ProxyPlans, copied: set<nat>, own: set<Shard>, previous: ProxyPlans?)
    requires |next.shards| == SHARD_COUNT && (previous != null ==> |previous.shards| == SHARD_COUNT)
    reads next, previous
  {
    forall i | 0 <= i < SHARD_COUNT ::
      if i in copied then next.shards[i] != null && next.shards[i] in own
      else next.shards[i] == SharedShard(previous, i)
  }

  // Writes one entry, cloning its shard on the first touch.
  method MergeEntry(next: ProxyPlans, copied: set<nat>, ghost own: set<Shard>, previous: ProxyPlans?, id: nat, after: Option<Plan>)
    returns (now: set<nat>, ghost owned: set<Shard>)
    requires next.Valid() && (previous != null ==> next != previous && |previous.shards| == SHARD_COUNT)
    requires Cloned(next, copied, own, previous)
    requires after.None? ==> id in next.entries
    modifies next, own
    ensures next.Valid() && Cloned(next, now, owned, previous)
    ensures own <= owned && fresh(owned - own)
    ensures next.entries == if after.None? then old(next.entries) - {id} else old(next.entries)[id := after.value]
  {
    var index := ShardOf(id);
    now, owned := copied, own;
    if index !in copied {
      CloneShard(next, index);
      now := now + {index};
      owned := owned + {next.shards[index]};
    }
    Write(next, id, after);
  }

  lemma MergeAdvances(before: map<nat, Plan>, patch: map<nat, Plan>, ids: seq<nat>, n: nat,
                      now: map<nat, Plan>, then_: map<nat, Plan>)
    requires n < |ids| && ids[n] !in ids[..n]
    requires IsMerge(before, patch, ids[..n], now)
    requires At(then_, ids[n]) == PatchAt(before, patch, ids[n])
    requires forall id | id != ids[n] :: At(then_, id) == At(now, id)
    ensures IsMerge(before, patch, ids[..n + 1], then_)
  {
    assert ids[..n + 1] == ids[..n] + [ids[n]];
  }

  lemma NotYetMerged(before: map<nat, Plan>, patch: map<nat, Plan>, ids: seq<nat>, id: nat, now: map<nat, Plan>)
    requires IsMerge(before, patch, ids, now) && id !in ids
    ensures At(now, id) == At(before, id)
  {
  }

  method Compare(previous: ProxyPlans?, patch: ProxyPlans?, id: nat) returns (changed: bool, after: Option<Plan>)
    requires previous != null ==> previous.Valid()
    requires patch != null ==> patch.Valid()
    ensures changed ==> after == PatchAt(Entries(previous), Entries(patch), id) && (after.None? ==> id in Entries(previous))
    ensures changed <==> At(Entries(previous), id) != PatchAt(Entries(previous), Entries(patch), id)
  {
    var before;
    before, after := Lookup(previous, id), Lookup(patch, id);
    changed := before != after && !(before.Some? && after.Some? && before.value.keys == after.value.keys);
  }

  // The entries a running merge shows: the previous ones until something changes.
  ghost function Current(merged: ProxyPlans?, previous: ProxyPlans?): map<nat, Plan>
    reads merged, previous
  {
    if merged == null then Entries(previous) else merged.entries
  }

  ghost predicate Merging(merged: ProxyPlans?, copied: set<nat>, own: set<Shard>, previous: ProxyPlans?)
    requires previous != null ==> |previous.shards| == SHARD_COUNT
    reads merged, previous, if merged == null then [] else merged.shards
  {
    if merged == null then copied == {} && own == {}
    else merged != previous && merged.Valid() && Cloned(merged, copied, own, previous)
  }

  // A listed route whose plan changes. The first of them starts the new snapshot.
  method MergeChange(merged: ProxyPlans?, copied: set<nat>, ghost own: set<Shard>, previous: ProxyPlans?, id: nat, after: Option<Plan>)
    returns (next: ProxyPlans, now: set<nat>, ghost owned: set<Shard>)
    requires previous != null ==> previous.Valid()
    requires Merging(merged, copied, own, previous)
    requires after.None? ==> id in Current(merged, previous)
    modifies merged, own
    ensures next == merged || fresh(next)
    ensures previous != null ==> |previous.shards| == SHARD_COUNT
    ensures Merging(next, now, owned, previous) && fresh(owned - own)
    ensures next.entries == old(if after.None? then Current(merged, previous) - {id} else Current(merged, previous)[id := after.value])
  {
    if merged == null {
      next := StartMerge(previous);
    } else {
      next := merged;
    }
    now, owned := MergeEntry(next, copied, own, previous, id, after);
  }

  // One listed route of a running merge.
  method MergeRoute(merged: ProxyPlans?, copied: set<nat>, ghost own: set<Shard>, previous: ProxyPlans?, patch: ProxyPlans?,
                    ids: seq<nat>, n: nat)
    returns (next: ProxyPlans?, now: set<nat>, ghost owned: set<Shard>)
    requires (previous != null ==> previous.Valid()) && (patch != null ==> patch.Valid())
    requires Merging(merged, copied, own, previous) && (merged != null ==> merged != patch)
    requires n < |ids| && ids[n] !in ids[..n]
    requires IsMerge(Entries(previous), Entries(patch), ids[..n], Current(merged, previous))
    modifies merged, own
    ensures next == merged || fresh(next)
    ensures previous != null ==> |previous.shards| == SHARD_COUNT
    ensures Merging(next, now, owned, previous) && fresh(owned - own)
    ensures IsMerge(Entries(previous), Entries(patch), ids[..n + 1], Current(next, previous))
    ensures next != merged ==> old(At(Entries(previous), ids[n]) != PatchAt(Entries(previous), Entries(patch), ids[n]))
  {
    ghost var before, patched, shown := Entries(previous), Entries(patch), Current(merged, previous);
    NotYetMerged(before, patched, ids[..n], ids[n], shown);
    next, now, owned := merged, copied, own;
    var changed, after := Compare(previous, patch, ids[n]);
    if changed {
      next, now, owned := MergeChange(merged, copied, own, previous, ids[n], after);
    }
    MergeAdvances(before, patched, ids, n, shown, Current(next, previous));
  }

  // The previous snapshot and the patch may still be read by others: nothing that existed is modified.
  // Listed routes show the patch, and are gone if it has nothing for them; where the keys agree, the previous plan
  // itself is kept; other routes stay.
  ghost predicate TakesPatch(before: map<nat, Plan>, patch: map<nat, Plan>, ids: seq<nat>, after: map<nat, Plan>) {
    forall id: nat :: ShowsPatch(before, patch, id in ids, after, id)
  }

  ghost predicate ShowsPatch(before: map<nat, Plan>, patch: map<nat, Plan>, listed: bool, after: map<nat, Plan>, id: nat) {
    && (!listed ==> (id in after <==> id in before) && (id in before ==> after[id] == before[id]))
    && (listed ==> (id in after <==> id in patch))
    && (listed && id in patch && id in before && before[id].keys == patch[id].keys ==> after[id] == before[id])
    && (listed && id in patch && (id in before ==> before[id].keys != patch[id].keys) ==> after[id] == patch[id])
  }

  lemma MergeTakesPatch(before: map<nat, Plan>, patch: map<nat, Plan>, ids: seq<nat>, after: map<nat, Plan>)
    requires IsMerge(before, patch, ids, after)
    ensures TakesPatch(before, patch, ids, after)
  {
    forall id: nat ensures ShowsPatch(before, patch, id in ids, after, id) {
      assert At(after, id) == MergedAt(before, patch, ids, id);
    }
  }

  method MergeProxyPlans(previous: ProxyPlans?, patch: ProxyPlans?, ids: seq<nat>) returns (next: ProxyPlans?)
    requires previous != null ==> previous.Valid()
    requires patch != null ==> patch.Valid()
    requires forall i, j | 0 <= i < j < |ids| :: ids[i] != ids[j]
    ensures next != null ==> next.Valid() && (next == previous || fresh(next))
    ensures IsMerge(Entries(previous), Entries(patch), ids, Entries(next))
    ensures next == previous <==> IsMerge(Entries(previous), Entries(patch), ids, Entries(previous))
    ensures TakesPatch(Entries(previous), Entries(patch), ids, Entries(next))
  {
    hide TakesPatch;
    var merged: ProxyPlans? := null;
    var copied: set<nat> := {};
    ghost var own: set<Shard> := {};
    for n := 0 to |ids|
      invariant merged != null ==> fresh(merged)
      invariant fresh(own)
      invariant Merging(merged, copied, own, previous)
      invariant IsMerge(Entries(previous), Entries(patch), ids[..n], Current(merged, previous))
      invariant merged != null ==>
                  exists k :: 0 <= k < n && At(Entries(previous), ids[k]) != PatchAt(Entries(previous), Entries(patch), ids[k])
    {
      merged, copied, own := MergeRoute(merged, copied, own, previous, patch, ids, n);
    }
    assert ids[..|ids|] == ids;
    next := if merged == null then previous else merged;
    MergeTakesPatch(Entries(previous), Entries(patch), ids, Entries(next));
  }
}
