// The invalidation queue of the read models: a dirty set, a closed sorted round, and one retained batch.
module ReadModelQueue {
  import opened Options
  import opened ReadModelBatch
  import opened Ids

  const DEFAULT_BATCH_SIZE := 5000

  datatype Memory = Memory(dirty: set<nat>, round: seq<nat>)

  // An id that the closed round has not handed out yet is coalesced there.
  ghost function Queued(m: Memory, ids: set<nat>): Memory {
    m.(dirty := m.dirty + set id | id in ids && id != 0 && id !in m.round)
  }

  ghost function Requeued(m: Memory, ids: set<nat>): Memory {
    m.(dirty := m.dirty + set id | id in ids && id != 0)
  }

  // A pop closes a new round when there is none, and takes its smallest ids.
  ghost predicate Pops(m: Memory, limit: int, ids: seq<nat>, after: Memory) {
    var round := ids + after.round;
    && Ascending(round) && |ids| == Min(if limit <= 0 then DEFAULT_BATCH_SIZE else limit, |round|)
    && if m.round != [] then round == m.round && after.dirty == m.dirty
       else Elements(round) == m.dirty && after.dirty == {}
  }

  // The first position whose id is not below the given one.
  method Search(round: seq<nat>, id: nat) returns (next: nat)
    requires Ascending(round)
    ensures next <= |round|
    ensures (next < |round| && round[next] == id) <==> id in round
  {
    var i, j := 0, |round|;
    while i < j
      invariant 0 <= i <= j <= |round|
      invariant forall k | 0 <= k < i :: round[k] < id
      invariant forall k | j <= k < |round| :: round[k] >= id
    {
      var h := (i + j) / 2;
      if round[h] >= id {
        j := h;
      } else {
        i := h + 1;
      }
    }
    next := i;
  }

  class RefreshQueue {
    var dirty: set<nat>
    var round: seq<nat>
    var pending: Batch?

    ghost predicate Valid()
      reads this
    {
      Ascending(round)
    }

    function State(): Memory
      reads this
    {
      Memory(dirty, round)
    }

    method QueueReadModelRefresh(ids: seq<nat>)
      requires Valid()
      modifies `dirty
      ensures Valid() && State() == Queued(old(State()), Elements(ids))
    {
      for n := 0 to |ids|
        invariant State() == Queued(old(State()), Elements(ids[..n]))
      {
        assert ids[..n + 1] == ids[..n] + [ids[n]];
        assert Elements(ids[..n + 1]) == Elements(ids[..n]) + {ids[n]};
        if ids[n] != 0 {
          var next := Search(round, ids[n]);
          if next < |round| && round[next] == ids[n] { continue; }
          dirty := dirty + {ids[n]};
        }
      }
      assert ids[..|ids|] == ids;
    }

    method PopDirty(limit: int) returns (ids: seq<nat>)
      requires Valid()
      modifies `dirty, `round
      ensures Valid() && Pops(old(State()), limit, ids, State())
    {
      var width := if limit <= 0 then DEFAULT_BATCH_SIZE else limit;
      if |round| == 0 {
        if dirty == {} { return []; }
        round := SortedIds(dirty);
        dirty := {};
      }
      var count := Min(width, |round|);
      ids := round[..count];
      assert ids + round[count..] == round;
      round := round[count..];
    }

    method RequeueDirty(ids: seq<nat>)
      modifies `dirty
      ensures State() == Requeued(old(State()), Elements(ids))
    {
      for n := 0 to |ids|
        invariant State() == Requeued(old(State()), Elements(ids[..n]))
      {
        assert ids[..n + 1] == ids[..n] + [ids[n]];
        assert Elements(ids[..n + 1]) == Elements(ids[..n]) + {ids[n]};
        if ids[n] != 0 {
          dirty := dirty + {ids[n]};
        }
      }
      assert ids[..|ids|] == ids;
    }

    method WorkPending() returns (pending_: bool)
      ensures pending_ <==> dirty != {} || round != [] || pending != null
    {
      pending_ := dirty != {} || |round| > 0 || pending != null;
    }
  }
}
