// Which stream events are accepted: in terms of the numbers in their ids and of the floors that were ever raised.
module StreamAcceptance {
  import opened Options
  import opened SortKeys
  import opened StreamEvents
  import opened StreamRuns

  // ---- One batch ----------------------------------------------------------------------------------------------

  // Floors are empty, or the key of a valid id.
  ghost predicate KeyedFloors(t: Tables) {
    forall stream | stream in t.floors :: t.floors[stream] == "" || exists id :: IsKeyOf(t.floors[stream], id)
  }

  ghost predicate IsKeyOf(key: string, id: string) {
    SortKey(id) != "" && SortKey(id) == key
  }

  // No floor, or a floor raised to numbers that are not above these.
  ghost predicate AtOrAbove(floor: string, ms: nat, n: nat) {
    floor == "" || exists id, floorMs: nat, floorN: nat ::
      Numbers(id, floorMs, floorN) && floor == SortKey(id) && (floorMs < ms || (floorMs == ms && floorN <= n))
  }

  lemma NotBelow(floor: string, id: string, ms: nat, n: nat)
    requires Numbers(id, ms, n) && (floor == "" || exists other :: IsKeyOf(floor, other))
    ensures !Less(SortKey(id), floor) <==> AtOrAbove(floor, ms, n)
  {
    hide Numbers, SortKey, Less;
    EmptyIsLeast(SortKey(id));
    if floor != "" {
      var other :| IsKeyOf(floor, other);
      ValidKey(other);
      var floorMs, floorN :| Numbers(other, floorMs, floorN);
      KeyOrder(id, other, ms, n, floorMs, floorN);
      if AtOrAbove(floor, ms, n) {
        var same, a: nat, b: nat :| Numbers(same, a, b) && floor == SortKey(same) && (a < ms || (a == ms && b <= n));
        KeyOrder(id, same, ms, n, a, b);
      }
    }
  }

  ghost predicate Holds(stats: seq<Stat>, k: Key) {
    exists i :: 0 <= i < |stats| && stats[i].key == k
  }

  // An event the ledger does not hold is accepted once and kept in the ledger, if it is at or above its stream's
  // floor; one below the floor, or in the ledger already, is not accepted. An id without numbers has no place to
  // be below a floor.
  ghost predicate ByNumbers(t: Tables, k: Key, accepted: seq<Stat>, after: Tables) {
    && (k in t.rows ==> k in after.rows && Occurrences(accepted, k) == 0)
    && (k !in t.rows ==> forall ms, n | Numbers(k.id, ms, n) ::
          if AtOrAbove(Floor(t, k.stream), ms, n) then k in after.rows && Occurrences(accepted, k) == 1
          else k !in after.rows && Occurrences(accepted, k) == 0)
    && (k !in t.rows && (forall ms, n :: !Numbers(k.id, ms, n)) ==> k in after.rows && Occurrences(accepted, k) == 1)
  }

  // And nothing else enters the ledger, or leaves it.
  ghost predicate AcceptedByNumbers(t: Tables, stats: seq<Stat>, accepted: seq<Stat>, after: Tables) {
    && (forall k: Key | k.id != "" && Holds(stats, k) :: ByNumbers(t, k, accepted, after))
    && (forall k: Key | k.id == "" :: Occurrences(accepted, k) == Occurrences(stats, k))
    && (forall k | k in t.rows :: k in after.rows && after.rows[k] == t.rows[k])
    && (forall k | k in after.rows && k !in t.rows :: k.id != "" && Holds(stats, k))
  }

  lemma IngestRow(t: Tables, stats: seq<Stat>, k: Key)
    ensures k in Ingested(t, stats).rows <==> k in t.rows || (k in Keys(stats) && (SortKey(k.id) == "" || !Less(SortKey(k.id), Floor(t, k.stream))))
    ensures k in t.rows ==> Ingested(t, stats).rows[k] == t.rows[k]
    ensures Occurrences(Kept(stats, Fresh(WithStreams(t, Keys(stats)), Keys(stats))), k) ==
            if k.id != "" && k in Keys(stats) && k !in t.rows && k in Ingested(t, stats).rows then 1
            else if k.id != "" then 0 else Occurrences(stats, k)
  {
    hide SortKey, Less, Keys, Kept, Occurrences;
    EmptyIsLeast(SortKey(k.id));
    var fresh_ := Fresh(WithStreams(t, Keys(stats)), Keys(stats));
    if k.id != "" { KeptOnce(stats, fresh_, k); } else { KeptWithoutIdentity(stats, fresh_, k); }
  }

  lemma {:induction false} KeptWithoutIdentity(stats: seq<Stat>, fresh_: set<Key>, k: Key)
    requires k.id == ""
    ensures Occurrences(Kept(stats, fresh_), k) == Occurrences(stats, k)
  {
    if stats != [] {
      var rest := if stats[0].key.id != "" && stats[0].key in fresh_ then fresh_ - {stats[0].key} else fresh_;
      KeptWithoutIdentity(stats[1..], rest, k);
      if Kept(stats, fresh_) != Kept(stats[1..], rest) { assert Kept(stats, fresh_)[1..] == Kept(stats[1..], rest); }
    }
  }

  lemma HoldsKeys(stats: seq<Stat>, k: Key)
    ensures k in Keys(stats) <==> k.id != "" && Holds(stats, k)
  {
    if k.id != "" && Holds(stats, k) {
      var i :| 0 <= i < |stats| && stats[i].key == k;
      assert stats[i] in stats;
    }
  }

  lemma KeyByNumbers(t: Tables, stats: seq<Stat>, k: Key)
    requires KeyedFloors(t) && k.id != "" && Holds(stats, k)
    ensures ByNumbers(t, k, Kept(stats, Fresh(WithStreams(t, Keys(stats)), Keys(stats))), Ingested(t, stats))
  {
    hide SortKey, Less, Keys, Kept, Fresh, WithStreams, Ingested, Numbers, AtOrAbove, Holds, Occurrences;
    IngestRow(t, stats, k);
    HoldsKeys(stats, k);
    ValidKey(k.id);
    forall ms, n | Numbers(k.id, ms, n) { NotBelow(Floor(t, k.stream), k.id, ms, n); }
  }

  lemma IngestByNumbers(t: Tables, stats: seq<Stat>)
    requires KeyedFloors(t)
    ensures AcceptedByNumbers(t, stats, Kept(stats, Fresh(WithStreams(t, Keys(stats)), Keys(stats))), Ingested(t, stats))
  {
    hide SortKey, Less, Keys, Kept, Fresh, WithStreams, Ingested, ByNumbers, Holds, Occurrences;
    forall k: Key ensures k.id != "" && Holds(stats, k) ==> ByNumbers(t, k, Kept(stats, Fresh(WithStreams(t, Keys(stats)), Keys(stats))), Ingested(t, stats)) {
      if k.id != "" && Holds(stats, k) { KeyByNumbers(t, stats, k); }
    }
    forall k: Key { IngestRow(t, stats, k); }
    forall k: Key { HoldsKeys(stats, k); }
  }

  // ---- Which result of an event is kept -----------------------------------------------------------------------

  // The result has no replayable identity, or is the first of the batch with an accepted one.
  ghost predicate IsKept(stats: seq<Stat>, fresh_: set<Key>, i: nat)
    requires i < |stats|
  {
    stats[i].key.id == "" || (stats[i].key in fresh_ && forall j | 0 <= j < i :: stats[j].key != stats[i].key)
  }

  // The places of the kept results, in order.
  ghost predicate Places(stats: seq<Stat>, fresh_: set<Key>, kept: seq<Stat>, at: seq<nat>) {
    && |at| == |kept| && (forall m | 0 <= m < |at| :: at[m] < |stats| && kept[m] == stats[at[m]])
    && (forall a, b | 0 <= a < b < |at| :: at[a] < at[b])
    && (forall i: nat | i < |stats| :: i in at <==> IsKept(stats, fresh_, i))
  }

  lemma {:induction false} KeptInOrder(stats: seq<Stat>, fresh_: set<Key>) returns (at: seq<nat>)
    ensures Places(stats, fresh_, Kept(stats, fresh_), at)
  {
    at := [];
    if stats != [] {
      hide Places;
      var first := stats[0].key;
      var taken := first.id == "" || first in fresh_;
      var rest := if first.id != "" && first in fresh_ then fresh_ - {first} else fresh_;
      var later := KeptInOrder(stats[1..], rest);
      assert Kept(stats, fresh_) == (if taken then [stats[0]] else []) + Kept(stats[1..], rest);
      at := (if taken then [0] else []) + Moved(later);
      PlacesBehind(stats, fresh_, Kept(stats[1..], rest), later);
    }
  }

  ghost function Moved(at: seq<nat>): seq<nat> {
    seq(|at|, m requires 0 <= m < |at| => at[m] + 1)
  }

  lemma PlacesBehind(stats: seq<Stat>, fresh_: set<Key>, kept: seq<Stat>, later: seq<nat>)
    requires stats != []
    requires var first := stats[0].key;
             Places(stats[1..], if first.id != "" && first in fresh_ then fresh_ - {first} else fresh_, kept, later)
    ensures var taken := stats[0].key.id == "" || stats[0].key in fresh_;
            Places(stats, fresh_, (if taken then [stats[0]] else []) + kept, (if taken then [0] else []) + Moved(later))
  {
    var first := stats[0].key;
    var taken := first.id == "" || first in fresh_;
    var at := (if taken then [0] else []) + Moved(later);
    assert IsKept(stats, fresh_, 0) <==> taken;
    forall i: nat | i < |stats| ensures i in at <==> IsKept(stats, fresh_, i) {
      MovedIn(later, i);
      if i > 0 { KeptBehind(stats, fresh_, i); }
    }
  }

  lemma MovedIn(at: seq<nat>, i: nat)
    ensures i in Moved(at) <==> i > 0 && i - 1 in at
  {
    if i > 0 && i - 1 in at {
      var m :| 0 <= m < |at| && at[m] == i - 1;
      assert Moved(at)[m] == i;
    }
  }

  lemma KeptBehind(stats: seq<Stat>, fresh_: set<Key>, i: nat)
    requires 0 < i < |stats|
    ensures var first := stats[0].key;
            IsKept(stats, fresh_, i) <==> IsKept(stats[1..], if first.id != "" && first in fresh_ then fresh_ - {first} else fresh_, i - 1)
  {
    assert stats[1..][i - 1] == stats[i];
    assert forall j | 0 <= j < i - 1 :: stats[1..][j] == stats[j + 1];
    if stats[i].key != stats[0].key && IsKept(stats[1..], fresh_, i - 1) {
      forall j | 0 <= j < i ensures stats[i].key.id == "" || stats[j].key != stats[i].key { if j > 0 { assert stats[1..][j - 1] == stats[j]; } }
    }
  }

  // ---- Runs ---------------------------------------------------------------------------------------------------

  // The event is at or above every floor that the run raises on its stream.
  ghost predicate AboveAllRaised(events: seq<Event>, stream: string, ms: nat, n: nat) {
    forall i | 0 <= i < |events| && events[i].Retire? && events[i].stream == stream ::
      forall floorMs: nat, floorN: nat | Numbers(events[i].before, floorMs, floorN) :: floorMs < ms || (floorMs == ms && floorN <= n)
  }

  ghost predicate NeverIngested(events: seq<Event>, k: Key) {
    forall i | 0 <= i < |events| && events[i].Ingest? :: !Holds(events[i].stats, k)
  }

  lemma StepKeepsKeyedFloors(w: World, e: Event)
    requires KeyedFloors(w.tables) && Legal(w, e)
    ensures KeyedFloors(Next(w, e).tables)
  {
    hide SortKey, Less, Keys, Kept, Fresh;
    if e.Retire? { assert IsKeyOf(SortKey(e.before), e.before); }
  }

  lemma {:induction false} RunKeepsKeyedFloors(w: World, events: seq<Event>)
    requires KeyedFloors(w.tables) && LegalRun(w, events)
    ensures KeyedFloors(After(w, events).tables)
    decreases |events|
  {
    if events != [] {
      hide KeyedFloors;
      StepKeepsKeyedFloors(w, events[0]);
      RunKeepsKeyedFloors(Next(w, events[0]), events[1..]);
    }
  }

  lemma HigherFloor(a: string, b: string, key: string)
    ensures !Less(key, Higher(a, b)) <==> !Less(key, a) && !Less(key, b)
  {
    LessTotal(a, b);
    if Less(a, b) {
      if Less(key, a) { LessTransitive(key, a, b); }
    } else if Less(key, b) && a != b {
      LessTransitive(key, b, a);
    }
  }

  // What one step does to an event that it does not ingest.
  lemma StepBehind(w: World, e: Event, k: Key, ms: nat, n: nat)
    requires KeyedFloors(w.tables) && Legal(w, e) && Numbers(k.id, ms, n) && k.id != ""
    requires k !in w.tables.rows && (e.Ingest? ==> !Holds(e.stats, k))
    ensures var next := Next(w, e);
            && k !in next.tables.rows && Times(next, k) == Times(w, k)
            && (AtOrAbove(Floor(next.tables, k.stream), ms, n) <==>
                  AtOrAbove(Floor(w.tables, k.stream), ms, n) && AboveAllRaised([e], k.stream, ms, n))
  {
    hide SortKey, Less, Keys, Kept, Numbers, AtOrAbove, Holds;
    StepKeepsKeyedFloors(w, e);
    NotBelow(Floor(w.tables, k.stream), k.id, ms, n);
    NotBelow(Floor(Next(w, e).tables, k.stream), k.id, ms, n);
    ValidKey(k.id);
    if e.Ingest? {
      HoldsKeys(e.stats, k);
      IngestRow(w.tables, e.stats, k);
    } else {
      HigherFloor(Floor(w.tables, e.stream), SortKey(e.before), SortKey(k.id));
      RaisedByNumbers(e, k, ms, n);
    }
  }

  lemma RaisedByNumbers(e: Event, k: Key, ms: nat, n: nat)
    requires e.Retire? && SortKey(e.before) != "" && Numbers(k.id, ms, n)
    ensures AboveAllRaised([e], k.stream, ms, n) <==> e.stream != k.stream || !Less(SortKey(k.id), SortKey(e.before))
  {
    hide SortKey, Less, Numbers;
    ValidKey(e.before);
    var a, b :| Numbers(e.before, a, b);
    forall floorMs: nat, floorN: nat | Numbers(e.before, floorMs, floorN)
      ensures !Less(SortKey(k.id), SortKey(e.before)) <==> floorMs < ms || (floorMs == ms && floorN <= n)
    {
      KeyOrder(k.id, e.before, ms, n, floorMs, floorN);
    }
    assert [e][0] == e;
  }

  lemma {:induction false} RunBehind(w: World, events: seq<Event>, k: Key, ms: nat, n: nat)
    requires KeyedFloors(w.tables) && LegalRun(w, events) && Numbers(k.id, ms, n) && k.id != ""
    requires k !in w.tables.rows && NeverIngested(events, k)
    ensures var after := After(w, events);
            && KeyedFloors(after.tables) && k !in after.tables.rows && Times(after, k) == Times(w, k)
            && (AtOrAbove(Floor(after.tables, k.stream), ms, n) <==>
                  AtOrAbove(Floor(w.tables, k.stream), ms, n) && AboveAllRaised(events, k.stream, ms, n))
    decreases |events|
  {
    if events != [] {
      hide KeyedFloors, AtOrAbove, Numbers, Holds;
      var rest := events[1..];
      assert events == [events[0]] + rest;
      assert forall i | 0 <= i < |rest| :: rest[i] == events[i + 1];
      StepKeepsKeyedFloors(w, events[0]);
      StepBehind(w, events[0], k, ms, n);
      RunBehind(Next(w, events[0]), rest, k, ms, n);
      assert AboveAllRaised(events, k.stream, ms, n) <==> AboveAllRaised([events[0]], k.stream, ms, n) && AboveAllRaised(rest, k.stream, ms, n) by {
        RaisedSplit(events, k.stream, ms, n);
      }
    }
  }

  lemma RaisedSplit(events: seq<Event>, stream: string, ms: nat, n: nat)
    requires events != []
    ensures AboveAllRaised(events, stream, ms, n) <==>
            AboveAllRaised([events[0]], stream, ms, n) && AboveAllRaised(events[1..], stream, ms, n)
  {
    hide Numbers;
    var rest := events[1..];
    assert forall i | 0 <= i < |rest| :: rest[i] == events[i + 1];
    if AboveAllRaised([events[0]], stream, ms, n) && AboveAllRaised(rest, stream, ms, n) {
      forall i, floorMs: nat, floorN: nat | 0 <= i < |events| && events[i].Retire? && events[i].stream == stream && Numbers(events[i].before, floorMs, floorN)
        ensures floorMs < ms || (floorMs == ms && floorN <= n)
      {
        if i == 0 { assert [events[0]][0] == events[0]; } else { assert rest[i - 1] == events[i]; }
      }
    }
  }

  // Over every run of batches and retirements: the first batch that brings a valid event accepts it, once and for the
  // ledger, if and only if the event is at or above every floor raised on its stream so far.
  lemma FirstIngestAccepts(w: World, events: seq<Event>, stats: seq<Stat>, k: Key, ms: nat, n: nat)
    requires KeyedFloors(w.tables) && LegalRun(w, events) && Numbers(k.id, ms, n) && k.id != ""
    requires k !in w.tables.rows && k !in w.accepted && Floor(w.tables, k.stream) == "" && NeverIngested(events, k) && Holds(stats, k)
    ensures var after := Next(After(w, events), Ingest(stats));
            if AboveAllRaised(events, k.stream, ms, n) then Times(after, k) == 1 && k in after.tables.rows
            else Times(after, k) == 0 && k !in after.tables.rows
  {
    hide Numbers, Kept, Fresh, WithStreams, Ingested, AboveAllRaised, LegalRun, Floor, NeverIngested;
    var before := After(w, events);
    RunBehind(w, events, k, ms, n);
    IngestByNumbers(before.tables, stats);
    HoldsKeys(stats, k);
  }
}
