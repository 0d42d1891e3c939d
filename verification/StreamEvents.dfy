// Acceptance of replayable stream events: a ledger of identities, and floors below which replays are refused.
module StreamEvents {
  import opened Options
  import opened SortKeys

  datatype Key = Key(stream: string, id: string)

  // An empty id marks a result without a replayable identity.
  datatype Stat = Stat(key: Key, payload: nat)

  datatype Tables = Tables(rows: map<Key, string>, floors: map<string, string>)

  function Floor(t: Tables, stream: string): string {
    if stream in t.floors then t.floors[stream] else ""
  }

  function Keys(stats: seq<Stat>): set<Key> {
    set stat | stat in stats && stat.key.id != "" :: stat.key
  }

  predicate Admits(t: Tables, k: Key) {
    k !in t.rows && (SortKey(k.id) == "" || !Less(SortKey(k.id), Floor(t, k.stream)))
  }

  function Fresh(t: Tables, keys: set<Key>): set<Key> {
    set k | k in keys && Admits(t, k)
  }

  function Inserted(t: Tables, keys: set<Key>): Tables {
    t.(rows := t.rows + map k | k in Fresh(t, keys) :: SortKey(k.id))
  }

  function Streams(keys: set<Key>): set<string> {
    set k | k in keys :: k.stream
  }

  // Every stream has a floor row; a new one starts at the empty floor.
  function WithStreams(t: Tables, keys: set<Key>): Tables {
    t.(floors := (map stream | stream in Streams(keys) :: "") + t.floors)
  }

  function Ingested(t: Tables, stats: seq<Stat>): Tables {
    Inserted(WithStreams(t, Keys(stats)), Keys(stats))
  }

  // The first occurrence of every fresh identity, and everything without one.
  function Kept(stats: seq<Stat>, fresh_: set<Key>): seq<Stat> {
    if stats == [] then []
    else if stats[0].key.id == "" then [stats[0]] + Kept(stats[1..], fresh_)
    else if stats[0].key in fresh_ then [stats[0]] + Kept(stats[1..], fresh_ - {stats[0].key})
    else Kept(stats[1..], fresh_)
  }

  function Occurrences(stats: seq<Stat>, k: Key): nat {
    if stats == [] then 0 else (if stats[0].key == k then 1 else 0) + Occurrences(stats[1..], k)
  }

  function WithoutIdentity(stats: seq<Stat>): seq<Stat> {
    if stats == [] then [] else (if stats[0].key.id == "" then [stats[0]] else []) + WithoutIdentity(stats[1..])
  }

  lemma {:induction false} KeptOnce(stats: seq<Stat>, fresh_: set<Key>, k: Key)
    requires k.id != ""
    ensures Occurrences(Kept(stats, fresh_), k) == if k in fresh_ && k in Keys(stats) then 1 else 0
  {
    if stats != [] {
      var rest := if stats[0].key.id != "" && stats[0].key in fresh_ then fresh_ - {stats[0].key} else fresh_;
      KeptOnce(stats[1..], rest, k);
      assert stats == [stats[0]] + stats[1..];
      assert Keys(stats) == Keys(stats[1..]) + (if stats[0].key.id != "" then {stats[0].key} else {});
      if Kept(stats, fresh_) != Kept(stats[1..], rest) {
        assert Kept(stats, fresh_)[1..] == Kept(stats[1..], rest);
      }
    }
  }

  lemma {:induction false} KeepsResultsWithoutIdentity(stats: seq<Stat>, fresh_: set<Key>)
    ensures WithoutIdentity(Kept(stats, fresh_)) == WithoutIdentity(stats)
  {
    if stats != [] {
      var rest := if stats[0].key.id != "" && stats[0].key in fresh_ then fresh_ - {stats[0].key} else fresh_;
      KeepsResultsWithoutIdentity(stats[1..], rest);
      if Kept(stats, fresh_) != Kept(stats[1..], rest) {
        assert Kept(stats, fresh_)[1..] == Kept(stats[1..], rest);
      }
    }
  }

  // ---- Retirement ---------------------------------------------------------------------------------------------

  function Higher(a: string, b: string): string { if Less(a, b) then b else a }

  function Raised(t: Tables, stream: string, floor: string): map<string, string> {
    t.floors[stream := Higher(Floor(t, stream), floor)]
  }

  // Rows stored before keys existed that the database can give one.
  predicate Normalizable(rows: map<Key, string>, stream: string, k: Key) {
    k in rows && k.stream == stream && rows[k] == "" && StoredKey(k.id) != ""
  }

  function Normalized(rows: map<Key, string>, keys: set<Key>): map<Key, string> {
    map k | k in rows :: if k in keys then StoredKey(k.id) else rows[k]
  }

  predicate Removable(rows: map<Key, string>, stream: string, floor: string, k: Key) {
    k in rows && k.stream == stream && rows[k] != "" && Less(rows[k], floor)
  }

  function Retired(t: Tables, stream: string, floor: string, normalized: set<Key>, removed: set<Key>): Tables {
    Tables(Normalized(t.rows, normalized) - removed, Raised(t, stream, floor))
  }

  ghost predicate MayRetire(t: Tables, stream: string, floor: string, normalized: set<Key>, removed: set<Key>) {
    && (forall k | k in normalized :: Normalizable(t.rows, stream, k))
    && (forall k | k in removed :: Removable(Normalized(t.rows, normalized), stream, Raised(t, stream, floor)[stream], k))
  }
}
