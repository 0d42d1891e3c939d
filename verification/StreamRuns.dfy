// Every valid stream event is accepted at most once, over any sequence of batches, replays and retirements.
module StreamRuns {
  import opened Options
  import opened SortKeys
  import opened StreamEvents

  // The tables, and how often each identity was accepted.
  datatype World = World(tables: Tables, accepted: map<Key, nat>)

  datatype Event =
    | Ingest(stats: seq<Stat>)
    | Retire(stream: string, before: string, normalized: set<Key>, removed: set<Key>)

  // Retirement picks bounded batches, so any rows that qualify may be the ones it treats.
  ghost predicate Legal(w: World, e: Event) {
    e.Retire? ==> SortKey(e.before) != "" && MayRetire(w.tables, e.stream, SortKey(e.before), e.normalized, e.removed)
  }

  ghost function Times(w: World, k: Key): nat {
    if k in w.accepted then w.accepted[k] else 0
  }

  ghost function Next(w: World, e: Event): World {
    match e
    case Ingest(stats) =>
      var keys := Keys(stats);
      var kept := Kept(stats, Fresh(WithStreams(w.tables, keys), keys));
      World(Ingested(w.tables, stats), map k | k in w.accepted.Keys + keys :: Times(w, k) + Occurrences(kept, k))
    case Retire(stream, before, normalized, removed) =>
      w.(tables := Retired(w.tables, stream, SortKey(before), normalized, removed))
  }

  ghost predicate LegalRun(w: World, events: seq<Event>)
    decreases |events|
  {
    events != [] ==> Legal(w, events[0]) && LegalRun(Next(w, events[0]), events[1..])
  }

  ghost function After(w: World, events: seq<Event>): World
    decreases |events|
  {
    if events == [] then w else After(Next(w, events[0]), events[1..])
  }

  const LARGEST_KEY := Join(Pad(UINT64_LIMIT - 1, KEY_DIGITS), Pad(UINT64_LIMIT - 1, KEY_DIGITS))

  // Rows hold no key, or a key of their id; floors are empty or the key of some id.
  ghost predicate WellKept(t: Tables) {
    && (forall k | k in t.rows :: t.rows[k] == "" || t.rows[k] == SortKey(k.id) || t.rows[k] == StoredKey(k.id))
    && (forall stream | stream in t.floors :: !Less(LARGEST_KEY, t.floors[stream]))
  }

  // The ids that a retirement can make acceptable again: no key of their own, but one that the database
  // computes, and not beyond the largest floor.
  ghost predicate Replayable(id: string) {
    SortKey(id) == "" && StoredKey(id) != "" && Less(StoredKey(id), LARGEST_KEY)
  }

  // Where an accepted event is: in the ledger, or below the floor of its stream.
  ghost predicate Remembered(t: Tables, k: Key) {
    k in t.rows || (SortKey(k.id) != "" && Less(SortKey(k.id), Floor(t, k.stream)))
  }

  ghost predicate Sound(w: World, k: Key) {
    WellKept(w.tables) && Times(w, k) <= 1 && (Times(w, k) == 1 ==> Remembered(w.tables, k))
  }

  lemma LargestFloor(id: string)
    requires SortKey(id) != ""
    ensures !Less(LARGEST_KEY, SortKey(id))
  {
    hide Pad, Less, Join, ParseUint, SortKey;
    ValidKey(id);
    var ms, n :| Numbers(id, ms, n);
    NumbersBound(id, ms, n);
    KeyIsItsOwnId(UINT64_LIMIT - 1, UINT64_LIMIT - 1);
    KeyOrder(LARGEST_KEY, id, UINT64_LIMIT - 1, UINT64_LIMIT - 1, ms, n);
  }

  lemma NumbersBound(id: string, ms: nat, n: nat)
    requires Numbers(id, ms, n)
    ensures ms < UINT64_LIMIT && n < UINT64_LIMIT
  {
  }

  lemma FloorRises(t: Tables, stream: string, floor: string, key: string)
    requires Less(key, Floor(t, stream))
    ensures Less(key, Higher(Floor(t, stream), floor))
  {
    if Less(Floor(t, stream), floor) { LessTransitive(key, Floor(t, stream), floor); }
  }

  lemma IngestKeepsWellKept(t: Tables, stats: seq<Stat>)
    requires WellKept(t)
    ensures WellKept(Ingested(t, stats))
  {
    hide SortKey, StoredKey, Less, Keys;
    EmptyIsLeast(LARGEST_KEY);
  }

  // What is newly accepted was not remembered, and then is in the ledger.
  lemma IngestRemembers(t: Tables, stats: seq<Stat>, k: Key)
    requires k in Fresh(WithStreams(t, Keys(stats)), Keys(stats)) || Remembered(t, k)
    ensures Remembered(Ingested(t, stats), k)
    ensures k in Fresh(WithStreams(t, Keys(stats)), Keys(stats)) ==> !Remembered(t, k)
  {
    hide SortKey, Less, Keys;
    EmptyIsLeast(SortKey(k.id));
  }

  lemma IngestKeepsSound(w: World, stats: seq<Stat>, k: Key)
    requires Sound(w, k) && k.id != ""
    ensures Sound(Next(w, Ingest(stats)), k)
  {
    hide WellKept, Remembered, Kept, Fresh, WithStreams, Ingested;
    var keys := Keys(stats);
    var fresh_ := Fresh(WithStreams(w.tables, keys), keys);
    KeptOnce(stats, fresh_, k);
    IngestKeepsWellKept(w.tables, stats);
    if k in fresh_ || Remembered(w.tables, k) { IngestRemembers(w.tables, stats, k); }
  }

  lemma EmptyIsLeast(s: string)
    ensures !Less(s, "")
  {
  }

  lemma RetireKeepsWellKept(w: World, e: Event)
    requires WellKept(w.tables) && e.Retire? && Legal(w, e)
    ensures WellKept(Next(w, e).tables)
  {
    hide SortKey, StoredKey, Less;
    LargestFloor(e.before);
    assert !Less(LARGEST_KEY, "") by { EmptyIsLeast(LARGEST_KEY); }
  }

  // A row that is removed has a key of its own below the floor, unless its id is replayable.
  lemma RetireKeepsRemembered(w: World, e: Event, k: Key)
    requires WellKept(w.tables) && e.Retire? && Legal(w, e) && Remembered(w.tables, k) && !Replayable(k.id)
    ensures Remembered(Next(w, e).tables, k)
  {
    hide SortKey, StoredKey, Less;
    var t, floor := w.tables, SortKey(e.before);
    RetireKeepsWellKept(w, e);
    if k in e.removed {
      var rows := Normalized(t.rows, e.normalized);
      assert Removable(rows, e.stream, Raised(t, e.stream, floor)[e.stream], k);
      if SortKey(k.id) != "" {
        if StoredKey(k.id) != "" { StoredKeyAgrees(k.id); }
      } else {
        NotBeyond(rows[k], Raised(t, e.stream, floor)[e.stream]);
      }
    } else if k !in t.rows && k.stream == e.stream {
      FloorRises(t, e.stream, floor, SortKey(k.id));
    }
  }

  lemma NotBeyond(key: string, floor: string)
    requires Less(key, floor) && !Less(LARGEST_KEY, floor)
    ensures Less(key, LARGEST_KEY)
  {
    LessTotal(LARGEST_KEY, floor);
    if floor != LARGEST_KEY { LessTransitive(key, floor, LARGEST_KEY); }
  }

  lemma StepKeepsSound(w: World, e: Event, k: Key)
    requires Sound(w, k) && Legal(w, e) && k.id != "" && !Replayable(k.id)
    ensures Sound(Next(w, e), k)
  {
    if e.Ingest? {
      IngestKeepsSound(w, e.stats, k);
    } else {
      RetireKeepsWellKept(w, e);
      if Remembered(w.tables, k) { RetireKeepsRemembered(w, e, k); }
    }
  }

  lemma {:induction false} RunKeepsSound(w: World, events: seq<Event>, k: Key)
    requires Sound(w, k) && LegalRun(w, events) && k.id != "" && !Replayable(k.id)
    ensures Sound(After(w, events), k)
    decreases |events|
  {
    if events != [] {
      StepKeepsSound(w, events[0], k);
      RunKeepsSound(Next(w, events[0]), events[1..], k);
    }
  }

  // A run may start on the ledger of an older installation, whose rows have no keys yet.
  ghost predicate Starts(w: World) {
    WellKept(w.tables) && w.accepted == map k | k in w.tables.rows :: 1
  }

  // Each valid event is accepted at most once; and so is each invalid one, unless it is replayable.
  lemma AcceptedAtMostOnce(w: World, events: seq<Event>, k: Key)
    requires Starts(w) && LegalRun(w, events) && k.id != "" && !Replayable(k.id)
    ensures Times(After(w, events), k) <= 1
  {
    RunKeepsSound(w, events, k);
  }

  lemma ValidIsNotReplayable(id: string, ms: nat, n: nat)
    requires Numbers(id, ms, n)
    ensures !Replayable(id) && SortKey(id) != ""
  {
    ValidKey(id);
  }

  lemma {:induction false} AppendEvent(w: World, events: seq<Event>, e: Event)
    requires LegalRun(w, events) && Legal(After(w, events), e)
    ensures LegalRun(w, events + [e]) && After(w, events + [e]) == Next(After(w, events), e)
    decreases |events|
  {
    var all := events + [e];
    if events == [] {
      assert all == [e] && all[1..] == [];
      assert LegalRun(Next(w, e), []) && After(Next(w, e), []) == Next(w, e);
    } else {
      assert all[1..] == events[1..] + [e];
      AppendEvent(Next(w, events[0]), events[1..], e);
    }
  }

  const EMPTY := World(Tables(map[], map[]), map[])

  lemma IngestOneRow(t: Tables, k: Key, payload: nat)
    requires k.id != "" && SortKey(k.id) == "" && k !in t.rows
    ensures var stats := [Stat(k, payload)];
            && Keys(stats) == {k} && Fresh(WithStreams(t, {k}), {k}) == {k}
            && Ingested(t, stats).rows == t.rows[k := ""]
            && Ingested(t, stats).floors == if k.stream in t.floors then t.floors else t.floors[k.stream := ""]
  {
    hide SortKey, Less;
    var stats := [Stat(k, payload)];
    assert stats[0] in stats && Keys(stats) == {k};
    assert Fresh(WithStreams(t, {k}), {k}) == {k};
    assert Streams({k}) == {k.stream};
  }

  lemma IngestOne(w: World, k: Key, payload: nat)
    requires k.id != "" && SortKey(k.id) == "" && k !in w.tables.rows
    ensures var after := Next(w, Ingest([Stat(k, payload)]));
            && Times(after, k) == Times(w, k) + 1
            && after.tables.rows == w.tables.rows[k := ""]
            && after.tables.floors == if k.stream in w.tables.floors then w.tables.floors else w.tables.floors[k.stream := ""]
  {
    hide SortKey, Less, Keys, Fresh, WithStreams, Ingested, Kept;
    IngestOneRow(w.tables, k, payload);
    KeptOnce([Stat(k, payload)], {k}, k);
  }

  // And a replayable event can be accepted twice: the database gives its row a key, retirement removes the
  // row below a later floor, and the next replay has no key that the floor could refuse.
  lemma ReplayableIsAcceptedTwice(k: Key, payload: nat) returns (events: seq<Event>)
    requires k.id != "" && Replayable(k.id)
    ensures LegalRun(EMPTY, events) && Starts(EMPTY) && Times(After(EMPTY, events), k) == 2
  {
    hide SortKey, StoredKey, Less, Pad, Join;
    var ingest := Ingest([Stat(k, payload)]);
    var retire := Retire(k.stream, LARGEST_KEY, {k}, {k});
    KeyIsItsOwnId(UINT64_LIMIT - 1, UINT64_LIMIT - 1);
    EmptyIsLeast(LARGEST_KEY);
    IngestOne(EMPTY, k, payload);
    var first := Next(EMPTY, ingest);
    assert Higher("", LARGEST_KEY) == LARGEST_KEY by { NotEmptyIsMore(LARGEST_KEY, StoredKey(k.id)); }
    assert MayRetire(first.tables, k.stream, LARGEST_KEY, {k}, {k});
    var second := Next(first, retire);
    assert second.tables.rows == map[];
    IngestOne(second, k, payload);
    events := [];
    assert LegalRun(EMPTY, []) && After(EMPTY, []) == EMPTY;
    AppendEvent(EMPTY, events, ingest);
    events := events + [ingest];
    AppendEvent(EMPTY, events, retire);
    events := events + [retire];
    AppendEvent(EMPTY, events, ingest);
    events := events + [ingest];
  }

  lemma NotEmptyIsMore(s: string, below: string)
    requires Less(below, s)
    ensures Less("", s)
  {
  }

  // Exactly the replayable ids can be accepted more than once.
  lemma ExactlyReplayable(k: Key)
    requires k.id != ""
    ensures Replayable(k.id) <==> exists w, events :: Starts(w) && LegalRun(w, events) && Times(After(w, events), k) > 1
  {
    if Replayable(k.id) {
      var events := ReplayableIsAcceptedTwice(k, 0);
    } else {
      forall w, events | Starts(w) && LegalRun(w, events) ensures Times(After(w, events), k) <= 1 {
        AcceptedAtMostOnce(w, events, k);
      }
    }
  }

  // Such ids exist: a second number of twenty digits that does not fit in 64 bits.
  lemma OutOfRangeIsReplayable(ms: nat, n: nat)
    requires ms < UINT64_LIMIT - 1 && UINT64_LIMIT <= n < Pow10(KEY_DIGITS)
    ensures Replayable(Join(Pad(ms, KEY_DIGITS), Pad(n, KEY_DIGITS)))
  {
    hide Pad, Pow10, Value, Less, Join;
    KeyRange();
    PadValue(n, KEY_DIGITS);
    SplitJoin(Pad(ms, KEY_DIGITS), Pad(n, KEY_DIGITS));
    JoinOrder(ms, n, UINT64_LIMIT - 1, UINT64_LIMIT - 1);
    assert LeftPad(Pad(ms, KEY_DIGITS)) == Pad(ms, KEY_DIGITS) && LeftPad(Pad(n, KEY_DIGITS)) == Pad(n, KEY_DIGITS);
    JoinLength(Pad(ms, KEY_DIGITS), Pad(n, KEY_DIGITS));
  }

  lemma JoinLength(a: string, b: string)
    ensures |Join(a, b)| == |a| + 1 + |b|
  {
  }
}
