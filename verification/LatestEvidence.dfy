// The latest evidence per workspace, configuration, route and protocol: last writer wins by check time.
module LatestEvidence {
  import opened Options
  import opened SortKeys
  import Ids
  import Sorting

  datatype Evidence = Evidence(workspace: nat, config: string, alive: bool)

  // `details` stands for the columns that are copied as they are. A statistic without a time was checked now.
  datatype Statistic = Statistic(id: nat, proxy: nat, protocol: nat, checkedAt: Option<int>, alive: bool, details: nat, evidence: seq<Evidence>)

  datatype Key = Key(workspace: nat, config: string, proxy: nat, protocol: nat)

  datatype Entry = Entry(key: Key, checkedAt: int, statistic: nat, alive: bool, details: nat)

  predicate Newer(candidate: Entry, existing: Entry) {
    candidate.checkedAt > existing.checkedAt ||
    (candidate.checkedAt == existing.checkedAt && candidate.statistic > existing.statistic)
  }

  // ---- What one statistic contributes -----------------------------------------------------------------------

  function EntryFor(stat: Statistic, now: int, workspace: nat, config: string, alive: bool): Entry {
    Entry(Key(workspace, config, stat.proxy, stat.protocol), if stat.checkedAt.Some? then stat.checkedAt.value else now, stat.id, alive, stat.details)
  }

  function Scoped(stat: Statistic, now: int, evidence: seq<Evidence>): seq<Entry> {
    if evidence == [] then []
    else
      var e := evidence[|evidence| - 1];
      Scoped(stat, now, evidence[..|evidence| - 1]) +
      (if e.workspace == 0 || e.config == "" then [] else [EntryFor(stat, now, e.workspace, e.config, e.alive)])
  }

  function Contributes(stat: Statistic, now: int): seq<Entry> {
    if stat.proxy == 0 || stat.protocol == 0 then []
    else if stat.evidence == [] then [EntryFor(stat, now, 0, "", stat.alive)]
    else Scoped(stat, now, stat.evidence)
  }

  function Contributions(stats: seq<Statistic>, now: int): seq<Entry> {
    if stats == [] then [] else Contributions(stats[..|stats| - 1], now) + Contributes(stats[|stats| - 1], now)
  }

  // ---- Keeping the latest -------------------------------------------------------------------------------------

  function Put(rows: map<Key, Entry>, e: Entry): map<Key, Entry> {
    if e.key !in rows || Newer(e, rows[e.key]) then rows[e.key := e] else rows
  }

  function PutAll(rows: map<Key, Entry>, entries: seq<Entry>): map<Key, Entry> {
    if entries == [] then rows else Put(PutAll(rows, entries[..|entries| - 1]), entries[|entries| - 1])
  }

  ghost predicate Latest(entries: set<Entry>, rows: map<Key, Entry>) {
    && (forall e | e in entries :: e.key in rows && !Newer(e, rows[e.key]))
    && (forall k | k in rows :: rows[k] in entries && rows[k].key == k)
  }

  // Entries of one key are told apart by their time and statistic.
  ghost predicate Distinguished(entries: set<Entry>) {
    forall a, b | a in entries && b in entries && a.key == b.key && a.checkedAt == b.checkedAt && a.statistic == b.statistic :: a == b
  }

  function Set(entries: seq<Entry>): set<Entry> {
    set e | e in entries
  }

  lemma {:induction false} PutAllKeepsLatest(entries: set<Entry>, rows: map<Key, Entry>, more: seq<Entry>)
    requires Latest(entries, rows)
    ensures Latest(entries + Set(more), PutAll(rows, more))
  {
    if more == [] {
      assert entries + Set(more) == entries;
    } else {
      var n := |more| - 1;
      PutAllKeepsLatest(entries, rows, more[..n]);
      assert more == more[..n] + [more[n]];
      assert entries + Set(more[..n]) + {more[n]} == entries + Set(more);
    }
  }

  // A batch is reduced to its own latest entries before it is merged.
  function Merged(rows: map<Key, Entry>, batch: map<Key, Entry>): map<Key, Entry> {
    map k | k in rows.Keys + batch.Keys ::
      if k in rows && (k !in batch || !Newer(batch[k], rows[k])) then rows[k] else batch[k]
  }

  // ---- Batches ------------------------------------------------------------------------------------------------

  datatype Batch = Batch(stats: seq<Statistic>, now: int)

  function BatchLatest(b: Batch): map<Key, Entry> {
    PutAll(map[], Contributions(b.stats, b.now))
  }

  function AfterBatches(batches: seq<Batch>): map<Key, Entry> {
    if batches == [] then map[] else Merged(AfterBatches(batches[..|batches| - 1]), BatchLatest(batches[|batches| - 1]))
  }

  function AllEntries(batches: seq<Batch>): set<Entry> {
    if batches == [] then {}
    else AllEntries(batches[..|batches| - 1]) + Set(Contributions(batches[|batches| - 1].stats, batches[|batches| - 1].now))
  }

  // Every row is the maximum by (time, statistic) of everything that was ever written for its key.
  lemma {:induction false} RowsAreLatest(batches: seq<Batch>)
    ensures Latest(AllEntries(batches), AfterBatches(batches))
  {
    if batches != [] {
      var n := |batches| - 1;
      RowsAreLatest(batches[..n]);
      var contributions := Contributions(batches[n].stats, batches[n].now);
      PutAllKeepsLatest({}, map[], contributions);
      assert {} + Set(contributions) == Set(contributions);
    }
  }

  // So neither the order of the batches nor the way the statistics were split into them matters.
  lemma OrderAndBatchingDoNotMatter(a: seq<Batch>, b: seq<Batch>)
    requires AllEntries(a) == AllEntries(b) && UniqueStatistics(a)
    ensures AfterBatches(a) == AfterBatches(b)
  {
    StatisticsDistinguish(a);
    RowsAreLatest(a);
    RowsAreLatest(b);
  }

  // What tells entries apart: statistic ids are unique, and one statistic has one evidence per configuration.
  ghost predicate DistinctEvidence(evidence: seq<Evidence>) {
    forall i, j | 0 <= i < j < |evidence| :: evidence[i].workspace != evidence[j].workspace || evidence[i].config != evidence[j].config
  }

  ghost predicate Written(batches: seq<Batch>, stat: Statistic, now: int) {
    exists b :: b in batches && stat in b.stats && b.now == now
  }

  ghost predicate UniqueStatistics(batches: seq<Batch>) {
    && (forall s, t, m, n | Written(batches, s, m) && Written(batches, t, n) && s.id == t.id :: s == t && m == n)
    && (forall s, m | Written(batches, s, m) :: DistinctEvidence(s.evidence))
  }

  lemma {:induction false} ScopedSource(stat: Statistic, now: int, evidence: seq<Evidence>, e: Entry)
    requires e in Scoped(stat, now, evidence)
    ensures exists k :: 0 <= k < |evidence| && e == EntryFor(stat, now, evidence[k].workspace, evidence[k].config, evidence[k].alive)
  {
    var n := |evidence| - 1;
    if e in Scoped(stat, now, evidence[..n]) {
      ScopedSource(stat, now, evidence[..n], e);
      var k :| 0 <= k < n && e == EntryFor(stat, now, evidence[..n][k].workspace, evidence[..n][k].config, evidence[..n][k].alive);
      assert evidence[k] == evidence[..n][k];
    }
  }

  lemma OneEntryPerKey(stat: Statistic, now: int, a: Entry, b: Entry)
    requires DistinctEvidence(stat.evidence) && a in Contributes(stat, now) && b in Contributes(stat, now) && a.key == b.key
    ensures a == b
  {
    if stat.evidence != [] {
      ScopedSource(stat, now, stat.evidence, a);
      ScopedSource(stat, now, stat.evidence, b);
    }
  }

  lemma {:induction false} ContributionSource(stats: seq<Statistic>, now: int, e: Entry)
    requires e in Contributions(stats, now)
    ensures exists stat :: stat in stats && e in Contributes(stat, now) && e.statistic == stat.id
  {
    var n := |stats| - 1;
    if e in Contributions(stats[..n], now) {
      ContributionSource(stats[..n], now, e);
      var stat :| stat in stats[..n] && e in Contributes(stat, now) && e.statistic == stat.id;
      assert stat in stats;
    } else {
      if stats[n].evidence != [] { ScopedSource(stats[n], now, stats[n].evidence, e); }
      assert stats[n] in stats;
    }
  }

  lemma {:induction false} EntrySource(batches: seq<Batch>, e: Entry)
    requires e in AllEntries(batches)
    ensures exists stat, now :: Written(batches, stat, now) && e in Contributes(stat, now) && e.statistic == stat.id
  {
    var n := |batches| - 1;
    if e in AllEntries(batches[..n]) {
      EntrySource(batches[..n], e);
      var stat, now :| Written(batches[..n], stat, now) && e in Contributes(stat, now) && e.statistic == stat.id;
      var b :| b in batches[..n] && stat in b.stats && b.now == now;
      assert b in batches;
    } else {
      ContributionSource(batches[n].stats, batches[n].now, e);
      var stat :| stat in batches[n].stats && e in Contributes(stat, batches[n].now) && e.statistic == stat.id;
      assert batches[n] in batches && Written(batches, stat, batches[n].now);
    }
  }

  lemma StatisticsDistinguish(batches: seq<Batch>)
    requires UniqueStatistics(batches)
    ensures Distinguished(AllEntries(batches))
  {
    forall a, b | a in AllEntries(batches) && b in AllEntries(batches) && a.key == b.key && a.statistic == b.statistic ensures a == b {
      EntrySource(batches, a);
      EntrySource(batches, b);
      var s, m :| Written(batches, s, m) && a in Contributes(s, m) && a.statistic == s.id;
      var t, n :| Written(batches, t, n) && b in Contributes(t, n) && b.statistic == t.id;
      OneEntryPerKey(s, m, a, b);
    }
  }

  // ---- What the rows say about the evidence -------------------------------------------------------------------

  // What a statistic says about one key: with evidence, what the piece for that workspace and configuration says;
  // without any, what the statistic says, outside all workspaces.
  ghost predicate Says(stat: Statistic, now: int, e: Entry) {
    && stat.proxy != 0 && stat.protocol != 0 && e.key.proxy == stat.proxy && e.key.protocol == stat.protocol
    && e.statistic == stat.id && e.details == stat.details
    && (stat.checkedAt == Some(e.checkedAt) || (stat.checkedAt == None && e.checkedAt == now))
    && (if stat.evidence == [] then e.key.workspace == 0 && e.key.config == "" && e.alive == stat.alive
        else e.key.workspace != 0 && e.key.config != "" && Evidence(e.key.workspace, e.key.config, e.alive) in stat.evidence)
  }

  ghost predicate AtLeastAsLate(a: Entry, b: Entry) {
    a.checkedAt > b.checkedAt || (a.checkedAt == b.checkedAt && a.statistic >= b.statistic)
  }

  lemma {:induction false} ScopedIsEvidence(stat: Statistic, now: int, evidence: seq<Evidence>, e: Entry)
    ensures e in Scoped(stat, now, evidence) <==>
            && e.key.workspace != 0 && e.key.config != "" && Evidence(e.key.workspace, e.key.config, e.alive) in evidence
            && e == EntryFor(stat, now, e.key.workspace, e.key.config, e.alive)
  {
    if evidence != [] {
      var n := |evidence| - 1;
      ScopedIsEvidence(stat, now, evidence[..n], e);
      assert evidence == evidence[..n] + [evidence[n]];
    }
  }

  lemma ContributesWhatItSays(stat: Statistic, now: int, e: Entry)
    ensures e in Contributes(stat, now) <==> Says(stat, now, e)
  {
    hide Scoped;
    ScopedIsEvidence(stat, now, stat.evidence, e);
  }

  lemma ContributionsSaid(stats: seq<Statistic>, now: int, e: Entry)
    ensures e in Contributions(stats, now) <==> exists stat :: stat in stats && Says(stat, now, e)
  {
    hide Says, Contributes;
    if e in Contributions(stats, now) {
      ContributionSource(stats, now, e);
      var stat :| stat in stats && e in Contributes(stat, now) && e.statistic == stat.id;
      ContributesWhatItSays(stat, now, e);
    }
    if stat :| stat in stats && Says(stat, now, e) {
      ContributesWhatItSays(stat, now, e);
      ContributionListed(stats, now, stat, e);
    }
  }

  // Whatever some statistic says about a key, the entry of the key is at least as late; and every entry is what some
  // statistic says.
  ghost predicate TellsLatest(stats: seq<Statistic>, now: int, entries: seq<Entry>) {
    && (forall stat, e | stat in stats && Says(stat, now, e) :: exists x :: x in entries && x.key == e.key && AtLeastAsLate(x, e))
    && (forall x | x in entries :: exists stat :: stat in stats && Says(stat, now, x))
  }

  lemma ListTellsLatest(stats: seq<Statistic>, now: int, entries: seq<Entry>)
    requires Lists(PutAll(map[], Contributions(stats, now)), entries)
    ensures TellsLatest(stats, now, entries)
  {
    hide Says, Contributions, PutAll;
    PutAllKeepsLatest({}, map[], Contributions(stats, now));
    var latest := PutAll(map[], Contributions(stats, now));
    forall stat, e | stat in stats && Says(stat, now, e) ensures exists x :: x in entries && x.key == e.key && AtLeastAsLate(x, e) {
      ContributionsSaid(stats, now, e);
      assert e in {} + Set(Contributions(stats, now));
      assert latest[e.key] in entries && AtLeastAsLate(latest[e.key], e);
    }
    forall x | x in entries ensures exists stat :: stat in stats && Says(stat, now, x) {
      assert x in {} + Set(Contributions(stats, now));
      ContributionsSaid(stats, now, x);
    }
  }

  lemma {:induction false} AllEntriesSaid(batches: seq<Batch>, e: Entry)
    ensures e in AllEntries(batches) <==> exists stat, now :: Written(batches, stat, now) && Says(stat, now, e)
  {
    hide Says, Contributions;
    if batches != [] {
      var n := |batches| - 1;
      AllEntriesSaid(batches[..n], e);
      ContributionsSaid(batches[n].stats, batches[n].now, e);
      forall stat, now { WrittenLast(batches, stat, now); }
    }
  }

  lemma WrittenLast(batches: seq<Batch>, stat: Statistic, now: int)
    requires batches != []
    ensures var n := |batches| - 1;
            Written(batches, stat, now) <==> Written(batches[..n], stat, now) || (stat in batches[n].stats && now == batches[n].now)
  {
    var n := |batches| - 1;
    assert batches == batches[..n] + [batches[n]];
    if Written(batches[..n], stat, now) {
      var b :| b in batches[..n] && stat in b.stats && b.now == now;
      assert b in batches;
    }
    if stat in batches[n].stats && now == batches[n].now { assert batches[n] in batches; }
  }

  // After any batches: whatever a statistic said about a key, the row of the key is at least as late, and if it is
  // from that statistic it says the same; and every row is what some statistic said.
  lemma RowsTellLatest(batches: seq<Batch>, stat: Statistic, now: int, e: Entry)
    requires Written(batches, stat, now) && Says(stat, now, e)
    ensures e.key in AfterBatches(batches) && AtLeastAsLate(AfterBatches(batches)[e.key], e)
    ensures UniqueStatistics(batches) && AfterBatches(batches)[e.key].statistic == stat.id ==> AfterBatches(batches)[e.key] == e
  {
    hide Says, AfterBatches;
    RowsAreLatest(batches);
    AllEntriesSaid(batches, e);
    var row := AfterBatches(batches)[e.key];
    if UniqueStatistics(batches) && row.statistic == stat.id {
      AllEntriesSaid(batches, row);
      var other, at :| Written(batches, other, at) && Says(other, at, row);
      SameStatistic(batches, stat, now, other, at, e, row);
    }
  }

  lemma SameStatistic(batches: seq<Batch>, a: Statistic, m: int, b: Statistic, n: int, x: Entry, y: Entry)
    requires UniqueStatistics(batches) && Written(batches, a, m) && Written(batches, b, n)
    requires Says(a, m, x) && Says(b, n, y) && a.id == y.statistic && x.key == y.key
    ensures x == y
  {
    ContributesWhatItSays(a, m, x);
    ContributesWhatItSays(b, n, y);
    OneEntryPerKey(a, m, x, y);
  }

  lemma RowsAreSaid(batches: seq<Batch>, k: Key)
    requires k in AfterBatches(batches)
    ensures AfterBatches(batches)[k].key == k
    ensures exists stat, now :: Written(batches, stat, now) && Says(stat, now, AfterBatches(batches)[k])
  {
    RowsAreLatest(batches);
    AllEntriesSaid(batches, AfterBatches(batches)[k]);
  }

  // ---- The database code --------------------------------------------------------------------------------------

  predicate Before(a: Key, b: Key) {
    if a.workspace != b.workspace then a.workspace < b.workspace
    else if a.config != b.config then Less(a.config, b.config)
    else if a.proxy != b.proxy then a.proxy < b.proxy
    else a.protocol < b.protocol
  }

  const IN_KEY_ORDER := (a: Entry, b: Entry) => !Before(b.key, a.key)

  lemma BeforeIsTotal(a: Key, b: Key)
    ensures Before(a, b) || Before(b, a) || a == b
    ensures !(Before(a, b) && Before(b, a))
  {
    LessTotal(a.config, b.config);
  }

  lemma BeforeTransitive(a: Key, b: Key, c: Key)
    requires !Before(b, a) && !Before(c, b)
    ensures !Before(c, a)
  {
    hide Less;
    LessTotal(a.config, b.config);
    LessTotal(b.config, c.config);
    LessTotal(a.config, c.config);
    if Less(a.config, b.config) && Less(b.config, c.config) { LessTransitive(a.config, b.config, c.config); }
  }

  lemma KeyOrderIsTotal()
    ensures Sorting.TotalPreorder(IN_KEY_ORDER)
  {
    forall a, b ensures IN_KEY_ORDER(a, b) || IN_KEY_ORDER(b, a) { BeforeIsTotal(a.key, b.key); }
    forall a, b, c | IN_KEY_ORDER(a, b) && IN_KEY_ORDER(b, c) ensures IN_KEY_ORDER(a, c) { BeforeTransitive(a.key, b.key, c.key); }
  }

  // Strictly ascending by the full conflict key.
  ghost predicate Ascending(entries: seq<Entry>) {
    forall i, j | 0 <= i < j < |entries| :: Before(entries[i].key, entries[j].key)
  }

  method FoldEvidence(stat: Statistic, now: int, latest: map<Key, Entry>) returns (after: map<Key, Entry>)
    ensures after == PutAll(latest, Scoped(stat, now, stat.evidence))
  {
    after := latest;
    for n := 0 to |stat.evidence|
      invariant after == PutAll(latest, Scoped(stat, now, stat.evidence[..n]))
    {
      var e := stat.evidence[n];
      assert stat.evidence[..n + 1][..n] == stat.evidence[..n];
      ghost var before := Scoped(stat, now, stat.evidence[..n]);
      assert Scoped(stat, now, stat.evidence[..n + 1]) ==
             before + (if e.workspace == 0 || e.config == "" then [] else [EntryFor(stat, now, e.workspace, e.config, e.alive)]);
      assert before + [] == before;
      if e.workspace == 0 || e.config == "" { continue; }
      var scoped := EntryFor(stat, now, e.workspace, e.config, e.alive);
      PutAllAppend(latest, before, [scoped]);
      assert [scoped][..0] == [];
      if scoped.key !in after || Newer(scoped, after[scoped.key]) {
        after := after[scoped.key := scoped];
      }
    }
    assert stat.evidence[..|stat.evidence|] == stat.evidence;
  }

  lemma {:induction false} PutAllAppend(rows: map<Key, Entry>, a: seq<Entry>, b: seq<Entry>)
    ensures PutAll(rows, a + b) == PutAll(PutAll(rows, a), b)
  {
    if b == [] {
      assert a + b == a;
    } else {
      var n := |b| - 1;
      assert (a + b)[..|a + b| - 1] == a + b[..n];
      PutAllAppend(rows, a, b[..n]);
    }
  }

  method FoldStatistic(stat: Statistic, now: int, latest: map<Key, Entry>) returns (after: map<Key, Entry>)
    ensures after == PutAll(latest, Contributes(stat, now))
  {
    after := latest;
    if stat.proxy == 0 || stat.protocol == 0 { return; }
    if |stat.evidence| == 0 {
      var entry := EntryFor(stat, now, 0, "", stat.alive);
      assert Contributes(stat, now) == [entry] && [entry][..0] == [];
      if entry.key !in after || Newer(entry, after[entry.key]) {
        after := after[entry.key := entry];
      }
    } else {
      after := FoldEvidence(stat, now, latest);
    }
  }

  method FoldLatest(stats: seq<Statistic>, now: int) returns (latest: map<Key, Entry>)
    ensures latest == PutAll(map[], Contributions(stats, now))
  {
    hide Contributes;
    latest := map[];
    for n := 0 to |stats|
      invariant latest == PutAll(map[], Contributions(stats[..n], now))
    {
      assert stats[..n + 1][..n] == stats[..n];
      PutAllAppend(map[], Contributions(stats[..n], now), Contributes(stats[n], now));
      latest := FoldStatistic(stats[n], now, latest);
    }
    assert stats[..|stats|] == stats;
  }

  ghost predicate Lists(latest: map<Key, Entry>, entries: seq<Entry>) {
    && (forall e | e in entries :: e.key in latest && latest[e.key] == e)
    && (forall k | k in latest :: latest[k].key == k && latest[k] in entries)
  }

  method ListEntries(latest: map<Key, Entry>) returns (entries: seq<Entry>)
    requires forall k | k in latest :: latest[k].key == k
    ensures Lists(latest, entries) && forall i, j | 0 <= i < j < |entries| :: entries[i].key != entries[j].key
  {
    entries := [];
    var left := latest.Keys;
    while left != {}
      invariant left <= latest.Keys
      invariant forall e | e in entries :: e.key in latest && e.key !in left && latest[e.key] == e
      invariant forall k | k in latest && k !in left :: latest[k] in entries
      invariant forall i, j | 0 <= i < j < |entries| :: entries[i].key != entries[j].key
      decreases |left|
    {
      var k :| k in left;
      entries, left := entries + [latest[k]], left - {k};
    }
  }

  lemma SortedStrictly(listed: seq<Entry>, entries: seq<Entry>)
    requires multiset(listed) == multiset(entries) && Sorting.Sorted(IN_KEY_ORDER, entries)
    requires forall i, j | 0 <= i < j < |listed| :: listed[i].key != listed[j].key
    ensures Ascending(entries)
  {
    Ids.PermutedDifferent(listed, entries);
    forall i, j | 0 <= i < j < |entries| ensures Before(entries[i].key, entries[j].key) {
      assert IN_KEY_ORDER(entries[i], entries[j]);
      assert entries[i] in multiset(entries) && entries[j] in multiset(entries);
      var a :| 0 <= a < |listed| && listed[a] == entries[i];
      var b :| 0 <= b < |listed| && listed[b] == entries[j];
      BeforeIsTotal(entries[i].key, entries[j].key);
    }
  }

  // The routes with a result that names no configuration.
  function Unscoped(stats: seq<Statistic>): set<nat> {
    set stat | stat in stats && stat.proxy != 0 && stat.protocol != 0 && stat.evidence == [] :: stat.proxy
  }

  // Those routes are the ones with an entry outside all workspaces.
  lemma UnscopedHaveEntries(stats: seq<Statistic>, now: int, proxy: nat)
    ensures proxy in Unscoped(stats) <==>
            exists e :: e in Contributions(stats, now) && e.key.proxy == proxy && e.key.workspace == 0
  {
    if stat :| stat in stats && stat.proxy != 0 && stat.protocol != 0 && stat.evidence == [] && stat.proxy == proxy {
      ContributionListed(stats, now, stat, EntryFor(stat, now, 0, "", stat.alive));
    }
    if e :| e in Contributions(stats, now) && e.key.proxy == proxy && e.key.workspace == 0 {
      ContributionSource(stats, now, e);
      var stat :| stat in stats && e in Contributes(stat, now) && e.statistic == stat.id;
      if stat.evidence != [] { ScopedIsScoped(stat, now, stat.evidence, e); }
    }
  }

  lemma {:induction false} ContributionListed(stats: seq<Statistic>, now: int, stat: Statistic, e: Entry)
    requires stat in stats && e in Contributes(stat, now)
    ensures e in Contributions(stats, now)
  {
    var n := |stats| - 1;
    if stat != stats[n] { ContributionListed(stats[..n], now, stat, e); }
  }

  lemma {:induction false} ScopedIsScoped(stat: Statistic, now: int, evidence: seq<Evidence>, e: Entry)
    requires e in Scoped(stat, now, evidence)
    ensures e.key.workspace != 0
  {
    var n := |evidence| - 1;
    if e in Scoped(stat, now, evidence[..n]) { ScopedIsScoped(stat, now, evidence[..n], e); }
  }

  method UnscopedRoutes(stats: seq<Statistic>, now: int) returns (routes: seq<nat>)
    ensures Ids.Ascending(routes) && forall proxy :: proxy in routes <==> proxy in Unscoped(stats)
    ensures forall proxy :: proxy in routes <==>
              exists e :: e in Contributions(stats, now) && e.key.proxy == proxy && e.key.workspace == 0
  {
    routes := Ids.SortedIds(Unscoped(stats));
    forall proxy ensures proxy in routes <==>
        exists e :: e in Contributions(stats, now) && e.key.proxy == proxy && e.key.workspace == 0
    {
      UnscopedHaveEntries(stats, now, proxy);
      assert proxy in routes <==> proxy in Ids.Elements(routes);
    }
    forall proxy ensures proxy in routes <==> proxy in Unscoped(stats) {
      assert proxy in routes <==> proxy in Ids.Elements(routes);
    }
  }

  // One entry per key, the latest of the batch, in the order in which the rows are locked; and the routes with a
  // result that names no configuration, in id order.
  method LatestProxyStatusEntries(stats: seq<Statistic>, now: int) returns (entries: seq<Entry>, routes: seq<nat>)
    ensures Lists(PutAll(map[], Contributions(stats, now)), entries) && Ascending(entries)
    ensures TellsLatest(stats, now, entries)
    ensures Ids.Ascending(routes)
    ensures forall proxy :: proxy in routes <==>
              exists e :: e in Contributions(stats, now) && e.key.proxy == proxy && e.key.workspace == 0
    ensures forall proxy :: proxy in routes <==>
              exists stat :: stat in stats && stat.proxy == proxy && proxy != 0 && stat.protocol != 0 && stat.evidence == []
  {
    hide TellsLatest, PutAll, Contributions;
    routes := UnscopedRoutes(stats, now);
    var latest := FoldLatest(stats, now);
    PutAllKeepsLatest({}, map[], Contributions(stats, now));
    var listed := ListEntries(latest);
    entries := SortedEntries(latest, listed);
    ListTellsLatest(stats, now, entries);
  }

  method SortedEntries(latest: map<Key, Entry>, listed: seq<Entry>) returns (entries: seq<Entry>)
    requires Lists(latest, listed) && forall i, j | 0 <= i < j < |listed| :: listed[i].key != listed[j].key
    ensures Lists(latest, entries) && Ascending(entries)
  {
    entries := Sorting.Sort(IN_KEY_ORDER, listed);
    KeyOrderIsTotal();
    Sorting.SortSorts(IN_KEY_ORDER, listed);
    SortedStrictly(listed, entries);
  }

  class LatestTable {
    var rows: map<Key, Entry>

    constructor ()
      ensures rows == map[]
    {
      rows := map[];
    }

    // The conditional upsert of a batch's entries.
    method Upsert(entries: seq<Entry>, ghost batch: map<Key, Entry>)
      requires Lists(batch, entries) && Ascending(entries)
      modifies this
      ensures rows == Merged(old(rows), batch)
    {
      for n := 0 to |entries|
        invariant rows == PutAll(old(rows), entries[..n])
      {
        assert entries[..n + 1][..n] == entries[..n];
        var e := entries[n];
        if e.key !in rows || Newer(e, rows[e.key]) {
          rows := rows[e.key := e];
        }
      }
      assert entries[..|entries|] == entries;
      UpsertIsMerge(old(rows), entries, batch);
    }

    // One transaction's part in the table.
    method UpdateLatest(stats: seq<Statistic>, now: int)
      modifies this
      ensures rows == Merged(old(rows), BatchLatest(Batch(stats, now)))
    {
      var entries, _ := LatestProxyStatusEntries(stats, now);
      Upsert(entries, PutAll(map[], Contributions(stats, now)));
    }
  }

  lemma {:induction false} UpsertOther(rows: map<Key, Entry>, entries: seq<Entry>, k: Key)
    requires forall e | e in entries :: e.key != k
    ensures k in PutAll(rows, entries) <==> k in rows
    ensures k in rows ==> PutAll(rows, entries)[k] == rows[k]
  {
    if entries != [] {
      var n := |entries| - 1;
      assert entries == entries[..n] + [entries[n]];
      UpsertOther(rows, entries[..n], k);
    }
  }

  // A row meets at most one entry of the batch.
  lemma {:induction false} UpsertOne(rows: map<Key, Entry>, entries: seq<Entry>, e: Entry)
    requires Ascending(entries) && e in entries
    ensures var after := PutAll(rows, entries);
            e.key in after && after[e.key] == if e.key in rows && !Newer(e, rows[e.key]) then rows[e.key] else e
  {
    hide Before;
    var n := |entries| - 1;
    var front, last := entries[..n], entries[n];
    assert entries == front + [last];
    forall other | other in front ensures other.key != last.key {
      var i :| 0 <= i < n && entries[i] == other;
      BeforeIsTotal(entries[i].key, last.key);
    }
    if e in front {
      UpsertOne(rows, front, e);
    } else {
      UpsertOther(rows, front, e.key);
    }
  }

  lemma UpsertIsMerge(rows: map<Key, Entry>, entries: seq<Entry>, batch: map<Key, Entry>)
    requires Lists(batch, entries) && Ascending(entries)
    ensures PutAll(rows, entries) == Merged(rows, batch)
  {
    hide Ascending, Newer, PutAll;
    var after, merged := PutAll(rows, entries), Merged(rows, batch);
    forall k ensures (k in after <==> k in merged) && (k in merged && k in after ==> after[k] == merged[k]) {
      if k in batch {
        UpsertOne(rows, entries, batch[k]);
      } else {
        UpsertOther(rows, entries, k);
      }
    }
  }
}
