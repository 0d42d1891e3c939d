// The ledger and floor tables as an object, and the two transactions on them.
module StreamLedger {
  import opened Options
  import opened Ids
  import opened SortKeys
  import opened StreamEvents
  import opened StreamAcceptance
  import Sorting

  const CHUNK := 1000

  function KeySet(keys: seq<Key>): set<Key> {
    set k | k in keys
  }

  lemma KeysAppend(stats: seq<Stat>, stat: Stat)
    ensures Keys(stats + [stat]) == Keys(stats) + (if stat.key.id != "" then {stat.key} else {})
  {
    var all := stats + [stat];
    assert all[|stats|] == stat;
    forall s | s in stats ensures s in all {
    }
  }

  // The identities of a batch, each once.
  method CollectKeys(stats: seq<Stat>) returns (events: seq<Key>)
    ensures AllDifferent(events) && KeySet(events) == Keys(stats)
  {
    events := [];
    var seen: set<Key> := {};
    for i := 0 to |stats|
      invariant seen == KeySet(events) == Keys(stats[..i]) && AllDifferent(events)
    {
      KeysAppend(stats[..i], stats[i]);
      assert stats[..i + 1] == stats[..i] + [stats[i]];
      var k := stats[i].key;
      if k.id == "" || k in seen { continue; }
      assert k !in events by { assert k !in KeySet(events); }
      assert KeySet(events + [k]) == KeySet(events) + {k};
      seen, events := seen + {k}, events + [k];
    }
    assert stats[..|stats|] == stats;
  }

  const BY_STREAM := (a: Key, b: Key) => Less(a.stream, b.stream) || (a.stream == b.stream && !Less(b.id, a.id))

  method SortedKeys(keys: seq<Key>) returns (events: seq<Key>)
    requires AllDifferent(keys)
    ensures AllDifferent(events) && KeySet(events) == KeySet(keys)
  {
    events := Sorting.Sort(BY_STREAM, keys);
    PermutedDifferent(keys, events);
    forall k ensures k in events <==> k in keys {
      assert k in multiset(events) <==> k in multiset(keys);
    }
  }

  lemma FreshTwice(t: Tables, a: set<Key>, b: set<Key>)
    requires a !! b
    ensures Fresh(Inserted(t, a), b) == Fresh(t, b) && Fresh(t, a + b) == Fresh(t, a) + Fresh(t, b)
  {
    hide SortKey, Less;
    forall k ensures k in Fresh(Inserted(t, a), b) <==> k in Fresh(t, b) {
      assert k in Fresh(t, a) ==> k in a;
    }
  }

  lemma InsertedTwice(t: Tables, a: set<Key>, b: set<Key>)
    requires a !! b
    ensures Fresh(Inserted(t, a), b) == Fresh(t, b) && Fresh(t, a + b) == Fresh(t, a) + Fresh(t, b)
    ensures Inserted(Inserted(t, a), b) == Inserted(t, a + b)
  {
    hide SortKey, Less, Fresh;
    FreshTwice(t, a, b);
    var x, y := Fresh(t, a), Fresh(t, b);
    assert (t.rows + map k | k in x :: SortKey(k.id)) + (map k | k in y :: SortKey(k.id)) ==
           t.rows + map k | k in x + y :: SortKey(k.id);
  }

  lemma ChunkApart(events: seq<Key>, start: nat, end: nat)
    requires AllDifferent(events) && start <= end <= |events|
    ensures KeySet(events[..start]) !! KeySet(events[start..end])
    ensures KeySet(events[..end]) == KeySet(events[..start]) + KeySet(events[start..end])
  {
    assert events[..end] == events[..start] + events[start..end];
    forall k | k in KeySet(events[..start]) ensures k !in KeySet(events[start..end]) {
      var i :| 0 <= i < start && events[..start][i] == k;
      forall j | 0 <= j < end - start ensures events[start..end][j] != k {
        assert events[i] != events[start + j];
      }
    }
  }

  // The first occurrence of each accepted identity, in order.
  method KeepAccepted(stats: seq<Stat>, fresh_: set<Key>) returns (accepted: seq<Stat>)
    ensures accepted == Kept(stats, fresh_)
  {
    accepted := [];
    var left := fresh_;
    assert stats[0..] == stats;
    for i := 0 to |stats|
      invariant accepted + Kept(stats[i..], left) == Kept(stats, fresh_)
    {
      var stat := stats[i];
      assert stats[i..][0] == stat && stats[i..][1..] == stats[i + 1..];
      if stat.key.id != "" {
        if stat.key !in left { continue; }
        left := left - {stat.key};
      }
      accepted := accepted + [stat];
    }
  }

  class Ledger {
    var rows: map<Key, string>
    var floors: map<string, string>

    function State(): Tables
      reads this
    {
      Tables(rows, floors)
    }

    constructor ()
      ensures State() == Tables(map[], map[])
    {
      rows, floors := map[], map[];
    }

    // One statement per chunk inserts what neither the ledger nor a floor refuses.
    method InsertChunk(chunk: seq<Key>) returns (inserted: set<Key>)
      modifies `rows
      ensures inserted == Fresh(old(State()), KeySet(chunk)) && State() == Inserted(old(State()), KeySet(chunk))
    {
      inserted := Fresh(State(), KeySet(chunk));
      rows := rows + map k | k in inserted :: SortKey(k.id);
    }

    method InsertAll(events: seq<Key>) returns (accepted: set<Key>)
      requires AllDifferent(events)
      modifies `rows
      ensures accepted == Fresh(old(State()), KeySet(events)) && State() == Inserted(old(State()), KeySet(events))
    {
      hide Fresh, Inserted;
      ghost var t := State();
      accepted := {};
      var start := 0;
      assert KeySet(events[..0]) == {} && Fresh(t, {}) == {} && Inserted(t, {}) == t by { NothingInserted(t); }
      while start < |events|
        invariant 0 <= start <= |events|
        invariant accepted == Fresh(t, KeySet(events[..start])) && State() == Inserted(t, KeySet(events[..start]))
      {
        var end := if start + CHUNK < |events| then start + CHUNK else |events|;
        ChunkApart(events, start, end);
        InsertedTwice(t, KeySet(events[..start]), KeySet(events[start..end]));
        var inserted := InsertChunk(events[start..end]);
        accepted := accepted + inserted;
        start := end;
      }
      assert events[..|events|] == events;
    }

    method AcceptEvents(stats: seq<Stat>) returns (accepted: seq<Stat>)
      modifies this
      ensures State() == Ingested(old(State()), stats)
      ensures accepted == Kept(stats, Fresh(WithStreams(old(State()), Keys(stats)), Keys(stats)))
      ensures KeyedFloors(old(State())) ==> AcceptedByNumbers(old(State()), stats, accepted, State())
      ensures exists at :: Places(stats, rows.Keys - old(rows).Keys, accepted, at)
    {
      hide Fresh, Inserted, KeyedFloors, AcceptedByNumbers, Places;
      var t := State();
      if KeyedFloors(t) { IngestByNumbers(t, stats); }
      ghost var at := KeptInOrder(stats, Fresh(WithStreams(t, Keys(stats)), Keys(stats)));
      NewRows(t, stats);
      var collected := CollectKeys(stats);
      if |collected| == 0 {
        NothingInserted(t);
        assert WithStreams(t, {}) == t by { assert Streams({}) == {}; }
        assert Keys(stats) == {} by { assert KeySet(collected) == {}; }
        NothingToFilter(stats);
        return stats;
      }
      var events := SortedKeys(collected);
      floors := WithStreams(t, KeySet(events)).floors;
      var fresh_ := InsertAll(events);
      accepted := KeepAccepted(stats, fresh_);
    }

    // Raises the floor first, then gives old rows their key, then removes rows below the floor. A pass that meets
    // neither limit leaves no row of the stream below the floor; other streams are not touched.
    method RetireEvents(stream: string, before: string, limit: int) returns (ok: bool, normalized: set<Key>, removed: set<Key>)
      modifies this
      ensures ok <==> SortKey(before) != ""
      ensures !ok ==> State() == old(State())
      ensures ok ==> MayRetire(old(State()), stream, SortKey(before), normalized, removed) &&
                     State() == Retired(old(State()), stream, SortKey(before), normalized, removed)
      ensures ok ==> forall k, r | k in rows && r in removed && Removable(rows, stream, floors[stream], k) ::
                !Less(rows[k], Normalized(old(rows), normalized)[r])
      ensures ok ==> UpToBound(normalized, (set k | k in old(rows) && Normalizable(old(rows), stream, k)), Bound(limit))
      ensures ok ==> UpToBound(removed, (set k | k in Normalized(old(rows), normalized) &&
                                         Removable(Normalized(old(rows), normalized), stream, floors[stream], k)), Bound(limit))
      ensures ok ==> RetiresStream(old(rows), State(), stream, |normalized| < Bound(limit) && |removed| < Bound(limit))
    {
      hide SortKey, StoredKey, Less, Higher, Normalizable, RetiresStream;
      normalized, removed := {}, {};
      var t, floor := State(), SortKey(before);
      if floor == "" { return false, {}, {}; }
      floors := Raised(t, stream, floor);
      normalized := UpTo(Bound(limit), set k | k in rows && Normalizable(rows, stream, k));
      rows := Normalized(rows, normalized);
      removed := Lowest(rows, (set k | k in rows && Removable(rows, stream, floors[stream], k)), Bound(limit));
      rows := rows - removed;
      ok := true;
      RetiredStream(t, stream, floor, normalized, removed, Bound(limit));
    }
  }

  // Rows of other streams stay; of this one, the rows below the floor may go, and all of them do if the pass met none
  // of its limits.
  ghost predicate RetiresStream(before: map<Key, string>, after: Tables, stream: string, complete: bool) {
    && stream in after.floors
    && (forall k | k in after.rows :: k in before)
    && (forall k | k in before && k.stream != stream :: k in after.rows && after.rows[k] == before[k])
    && (forall k | k in before && k !in after.rows :: Less(if before[k] == "" then StoredKey(k.id) else before[k], after.floors[stream]))
    && (complete ==> forall k | k in after.rows && k.stream == stream ::
          if after.rows[k] == "" then StoredKey(k.id) == "" else !Less(after.rows[k], after.floors[stream]))
  }

  lemma RetiredStream(t: Tables, stream: string, floor: string, normalized: set<Key>, removed: set<Key>, bound: nat)
    requires MayRetire(t, stream, floor, normalized, removed)
    requires UpToBound(normalized, (set k | k in t.rows && Normalizable(t.rows, stream, k)), bound)
    requires UpToBound(removed, (set k | k in Normalized(t.rows, normalized) &&
                                Removable(Normalized(t.rows, normalized), stream, Raised(t, stream, floor)[stream], k)), bound)
    ensures RetiresStream(t.rows, Retired(t, stream, floor, normalized, removed), stream, |normalized| < bound && |removed| < bound)
  {
    hide SortKey, StoredKey, Less, Higher;
    var rows, top := Normalized(t.rows, normalized), Raised(t, stream, floor)[stream];
    if |normalized| < bound && |removed| < bound {
      forall k | k in rows - removed && k.stream == stream ensures if rows[k] == "" then StoredKey(k.id) == "" else !Less(rows[k], top) {
        assert Normalizable(t.rows, stream, k) ==> k in normalized;
        assert !Removable(rows, stream, top, k);
      }
    }
  }

  lemma NewRows(t: Tables, stats: seq<Stat>)
    ensures Ingested(t, stats).rows.Keys - t.rows.Keys == Fresh(WithStreams(t, Keys(stats)), Keys(stats))
  {
    hide SortKey, Less, Keys;
  }

  // All that qualify, or as many as one pass may treat.
  ghost predicate UpToBound(some: set<Key>, all: set<Key>, bound: nat) {
    some <= all && |some| <= bound && (some == all || |some| == bound)
  }

  function Bound(limit: int): nat { if limit < 1 then 1 else limit }

  lemma NothingInserted(t: Tables)
    ensures Fresh(t, {}) == {} && Inserted(t, {}) == t
  {
    assert Inserted(t, {}).rows == t.rows;
  }

  lemma {:induction false} NothingToFilter(stats: seq<Stat>)
    requires Keys(stats) == {}
    ensures Kept(stats, {}) == stats
  {
    if stats != [] {
      var first := stats[0];
      assert first in stats && (first.key.id != "" ==> first.key in Keys(stats));
      assert Keys(stats[1..]) == {} by { assert forall s | s in stats[1..] :: s in stats; }
      NothingToFilter(stats[1..]);
    }
  }

  // The keys with the lowest rows, no more than the limit.
  method Lowest(rows: map<Key, string>, keys: set<Key>, limit: nat) returns (lowest: set<Key>)
    requires keys <= rows.Keys
    ensures lowest <= keys && |lowest| <= limit && (lowest == keys || |lowest| == limit)
    ensures forall k, r | k in keys - lowest && r in lowest :: !Less(rows[k], rows[r])
  {
    hide Less;
    lowest := {};
    var left := keys;
    while left != {} && |lowest| < limit
      invariant lowest !! left && lowest + left == keys && |lowest| <= limit
      invariant forall k, r | k in left && r in lowest :: !Less(rows[k], rows[r])
      decreases |left|
    {
      var least := Least(rows, left);
      lowest, left := lowest + {least}, left - {least};
    }
  }

  method UpTo(limit: nat, keys: set<Key>) returns (some: set<Key>)
    ensures some <= keys && |some| <= limit && (some == keys || |some| == limit)
  {
    some := {};
    var left := keys;
    while left != {} && |some| < limit
      invariant some !! left && some + left == keys && |some| <= limit
      decreases |left|
    {
      var k :| k in left;
      some, left := some + {k}, left - {k};
    }
  }

  method Least(rows: map<Key, string>, keys: set<Key>) returns (least: Key)
    requires keys != {} && keys <= rows.Keys
    ensures least in keys && forall k | k in keys :: !Less(rows[k], rows[least])
  {
    hide Less;
    least :| least in keys;
    LessTotal(rows[least], rows[least]);
    var left := keys - {least};
    while left != {}
      invariant least in keys && left <= keys
      invariant forall k | k in keys - left :: !Less(rows[k], rows[least])
      decreases |left|
    {
      var k :| k in left;
      LessTotal(rows[k], rows[k]);
      if Less(rows[k], rows[least]) {
        forall other | other in keys - left ensures !Less(rows[other], rows[k]) {
          if Less(rows[other], rows[k]) { LessTransitive(rows[other], rows[k], rows[least]); }
        }
        least := k;
      }
      left := left - {k};
    }
  }
}
