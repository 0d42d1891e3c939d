// The counter tables as an object, with the statements that increment, backfill, compact and query them.
module DailyTables {
  import opened Options
  import opened Ids
  import opened Sums
  import opened DailyChecks

  const BACKFILL_BATCH := 500

  function CheckSet(stats: seq<Check>): set<Check> {
    set c | c in stats
  }

  lemma InAppend(checks: set<Check>, c: Check, s: Slot)
    requires c !in checks
    ensures |In(checks + {c}, s)| == |In(checks, s)| + (if SlotOf(c) == s then 1 else 0)
  {
    if SlotOf(c) == s {
      assert In(checks + {c}, s) == In(checks, s) + {c};
    } else {
      assert In(checks + {c}, s) == In(checks, s);
    }
  }

  // The counters of a batch, per route and day.
  ghost predicate Aggregates(aggregated: map<Slot, nat>, checks: set<Check>) {
    aggregated.Keys == Slots(checks) && forall s :: Count(aggregated, s) == |In(checks, s)|
  }

  lemma AggregateOne(aggregated: map<Slot, nat>, checks: set<Check>, c: Check)
    requires Aggregates(aggregated, checks) && c !in checks
    ensures Aggregates(aggregated[SlotOf(c) := Count(aggregated, SlotOf(c)) + 1], checks + {c})
  {
    hide SlotOf;
    var after := aggregated[SlotOf(c) := Count(aggregated, SlotOf(c)) + 1];
    forall s ensures Count(after, s) == |In(checks + {c}, s)| { InAppend(checks, c, s); }
    assert Slots(checks + {c}) == Slots(checks) + {SlotOf(c)};
  }

  method Aggregate(stats: seq<Check>) returns (aggregated: map<Slot, nat>)
    requires AllDifferent(stats)
    ensures Aggregates(aggregated, Countable(CheckSet(stats)))
  {
    hide Aggregates;
    aggregated := map[];
    assert Aggregates(map[], {}) by { NothingAggregated(); }
    assert Countable(CheckSet(stats[..0])) == {};
    for n := 0 to |stats|
      invariant Aggregates(aggregated, Countable(CheckSet(stats[..n])))
    {
      var c := stats[n];
      assert stats[..n + 1] == stats[..n] + [c] && c !in stats[..n];
      assert CheckSet(stats[..n + 1]) == CheckSet(stats[..n]) + {c};
      if c.proxy == 0 {
        assert Countable(CheckSet(stats[..n + 1])) == Countable(CheckSet(stats[..n]));
        continue;
      }
      assert Countable(CheckSet(stats[..n + 1])) == Countable(CheckSet(stats[..n])) + {c};
      AggregateOne(aggregated, Countable(CheckSet(stats[..n])), c);
      aggregated := aggregated[SlotOf(c) := Count(aggregated, SlotOf(c)) + 1];
    }
    assert stats[..|stats|] == stats;
  }

  lemma NothingAggregated()
    ensures Aggregates(map[], {})
  {
    forall s: Slot ensures |In({}, s)| == 0 { assert In({}, s) == {}; }
  }

  predicate Earlier(a: Slot, b: Slot) {
    a.day < b.day || (a.day == b.day && a.proxy < b.proxy)
  }

  // The earliest of some slots: as many as the limit allows, and none of the others comes before one of them.
  ghost predicate EarliestOf(chosen: set<Slot>, candidates: set<Slot>, limit: nat) {
    && chosen <= candidates && |chosen| <= limit && (chosen == candidates || |chosen| == limit)
    && forall s, c | s in candidates - chosen && c in chosen :: Earlier(c, s)
  }

  method Earliest(candidates: set<Slot>) returns (first: Slot)
    requires candidates != {}
    ensures first in candidates && forall s | s in candidates && s != first :: Earlier(first, s)
  {
    first :| first in candidates;
    var left := candidates - {first};
    while left != {}
      invariant first in candidates && first !in left && left <= candidates
      invariant forall s | s in candidates - left && s != first :: Earlier(first, s)
      decreases |left|
    {
      var s :| s in left;
      var before := first;
      assert s.day != first.day || s.proxy != first.proxy;
      if Earlier(s, first) { first := s; }
      left := left - {s};
      forall other | other in candidates - left && other != first ensures Earlier(first, other) {
        assert other == s || other == before || Earlier(before, other);
      }
    }
  }

  method ChooseSlots(candidates: set<Slot>, limit: nat) returns (chosen: set<Slot>)
    ensures EarliestOf(chosen, candidates, limit)
  {
    chosen := {};
    var left := candidates;
    while left != {} && |chosen| < limit
      invariant chosen !! left && chosen + left == candidates && |chosen| <= limit
      invariant forall s, c | s in left && c in chosen :: Earlier(c, s)
      decreases |left|
    {
      var s := Earliest(left);
      chosen, left := chosen + {s}, left - {s};
    }
  }

  // The routes with a day to compact that no backfill has reached, and the days that may be compacted.
  function Unfilled(t: Tables, before: int): set<nat> {
    set s | s in t.daily && s.day < before && s.proxy !in t.backfilled :: s.proxy
  }

  function Compactable(t: Tables, before: int): set<Slot> {
    set s | s in t.daily && s.day < before && s.proxy in t.backfilled
  }

  // ---- Folding removed days into the totals -----------------------------------------------------------------

  function Folded(totals: map<nat, Total>, s: Slot, count: nat): map<nat, Total> {
    totals[s.proxy := if s.proxy in totals
                      then Total(totals[s.proxy].count + count, Max(totals[s.proxy].compactedBefore, s.day + 1))
                      else Total(count, s.day + 1)]
  }

  lemma OfAdd(slots: set<Slot>, s: Slot, p: nat)
    ensures Of(slots + {s}, p) == if p == s.proxy then Of(slots, p) + {s} else Of(slots, p)
  {
  }

  lemma FoldOne(t: Tables, slots: set<Slot>, s: Slot)
    requires slots + {s} <= t.daily.Keys && s !in slots
    ensures Compacted(t, slots + {s}).totals == Folded(Compacted(t, slots).totals, s, t.daily[s])
  {
    hide TotalAfter;
    var before, after := Compacted(t, slots).totals, Compacted(t, slots + {s}).totals;
    var folded := Folded(before, s, t.daily[s]);
    assert Proxies(slots + {s}) == Proxies(slots) + {s.proxy};
    forall p | p in after ensures after[p] == folded[p] {
      if p == s.proxy { FoldSame(t, slots, s); } else { FoldOther(t, slots, s, p); }
    }
  }

  lemma FoldOther(t: Tables, slots: set<Slot>, s: Slot, p: nat)
    requires slots + {s} <= t.daily.Keys && p != s.proxy
    ensures TotalAfter(t, slots + {s}, p) == TotalAfter(t, slots, p)
  {
    OfAdd(slots, s, p);
  }

  lemma FoldCount(t: Tables, slots: set<Slot>, s: Slot)
    requires slots + {s} <= t.daily.Keys && s !in slots
    ensures Sum(t.daily, Of(slots + {s}, s.proxy)) == Sum(t.daily, Of(slots, s.proxy)) + t.daily[s]
  {
    OfAdd(slots, s, s.proxy);
    var mine := Of(slots, s.proxy);
    SumWithout(t.daily, mine + {s}, s);
    assert mine + {s} - {s} == mine;
  }

  lemma KnownProxy(slots: set<Slot>, p: nat)
    ensures p in Proxies(slots) <==> Of(slots, p) != {}
  {
    assert forall k | k in Of(slots, p) :: k.proxy in Proxies(slots);
    if p in Proxies(slots) {
      var k :| k in slots && k.proxy == p;
      assert k in Of(slots, p);
    }
  }

  lemma FirstBoundStep(mine: set<Slot>, s: Slot)
    ensures After(mine + {s}, SomeDay(mine + {s})) == if mine == {} then s.day + 1 else Max(After(mine, SomeDay(mine)), s.day + 1)
  {
    if mine == {} { assert mine + {s} == {s}; }
  }

  lemma FoldSame(t: Tables, slots: set<Slot>, s: Slot)
    requires slots + {s} <= t.daily.Keys && s !in slots
    ensures var known := s.proxy in t.totals || s.proxy in Proxies(slots);
            TotalAfter(t, slots + {s}, s.proxy) ==
            if known then
              var old_ := TotalAfter(t, slots, s.proxy);
              Total(old_.count + t.daily[s], Max(old_.compactedBefore, s.day + 1))
            else Total(t.daily[s], s.day + 1)
  {
    hide Sum, After, SomeDay, Of, Proxies;
    var p := s.proxy;
    var mine := Of(slots, p);
    OfAdd(slots, s, p);
    FoldCount(t, slots, s);
    KnownProxy(slots, p);
    if p !in t.totals { FirstBoundStep(mine, s); }
    EmptySum(t.daily);
  }

  lemma EmptySum(m: map<Slot, nat>)
    ensures Sum(m, {}) == 0
  {
  }

  class Counters {
    var raw: set<Check>
    var daily: map<Slot, nat>
    var totals: map<nat, Total>
    var backfilled: set<nat>

    function State(): Tables
      reads this
    {
      Tables(raw, daily, totals, backfilled)
    }

    constructor ()
      ensures State() == Tables({}, map[], map[], {})
    {
      raw, daily, totals, backfilled := {}, map[], map[], {};
    }

    method IncrementProxyDailyChecks(stats: seq<Check>)
      requires AllDifferent(stats)
      modifies `daily
      ensures daily == Incremented(old(daily), Countable(CheckSet(stats)))
    {
      var aggregated := Aggregate(stats);
      daily := map s | s in daily.Keys + aggregated.Keys :: Count(daily, s) + Count(aggregated, s);
    }

    // Folds the given days, one row after the other.
    method Fold(slots: set<Slot>)
      requires slots <= daily.Keys
      modifies `daily, `totals
      ensures State() == Compacted(old(State()), slots)
    {
      hide Folded, TotalAfter;
      ghost var t := State();
      var left := slots;
      assert Compacted(t, {}).totals == totals by { FoldNothing(t); }
      assert slots - left == {};
      while left != {}
        invariant left <= slots && unchanged(`daily)
        invariant totals == Compacted(t, slots - left).totals
        decreases |left|
      {
        var s :| s in left;
        FoldOne(t, slots - left, s);
        assert slots - (left - {s}) == slots - left + {s};
        totals := Folded(totals, s, daily[s]);
        left := left - {s};
      }
      assert slots - {} == slots;
      daily := daily - slots;
    }

    // Counts the eligible history per route and day, and raises the counters that are lower.
    method BackfillChunk(proxies: seq<nat>, today: int)
      modifies `daily
      ensures daily == Backfilled(old(State()), Elements(proxies), today).daily
    {
      hide Aggregates, Backfilled, Count, Max;
      ghost var t := State();
      var counted := CountHistory(Elements(proxies), today);
      UpsertIsBackfill(t, Elements(proxies), today, counted);
      daily := map s | s in daily.Keys + counted.Keys :: Max(Count(daily, s), Count(counted, s));
    }

    method CountHistory(proxies: set<nat>, today: int) returns (counted: map<Slot, nat>)
      ensures Aggregates(counted, Eligible(State(), proxies, today))
    {
      hide Aggregates;
      ghost var eligible := Eligible(State(), proxies, today);
      counted := map[];
      NothingAggregated();
      var left := raw;
      assert eligible - left == {};
      while left != {}
        invariant left <= raw && Aggregates(counted, eligible - left)
        decreases |left|
      {
        var c :| c in left;
        if c.proxy in proxies && DayOf(c.time) < today && (c.proxy in totals ==> DayOf(c.time) >= totals[c.proxy].compactedBefore) {
          AggregateOne(counted, eligible - left, c);
          counted := counted[SlotOf(c) := Count(counted, SlotOf(c)) + 1];
          assert eligible - (left - {c}) == eligible - left + {c};
        } else {
          assert eligible - (left - {c}) == eligible - left;
        }
        left := left - {c};
      }
      assert eligible - {} == eligible;
    }

    method BackfillProxyDailyChecks(proxies: seq<nat>, today: int)
      requires AllDifferent(proxies)
      modifies `daily, `backfilled
      ensures State() == Backfilled(old(State()), Elements(proxies), today)
    {
      hide Backfilled;
      ghost var t := State();
      var start := 0;
      BackfillNothing(t, today);
      assert Elements(proxies[..0]) == {};
      while start < |proxies|
        invariant 0 <= start <= |proxies|
        invariant State() == t.(daily := Backfilled(t, Elements(proxies[..start]), today).daily)
      {
        var end := if start + BACKFILL_BATCH < |proxies| then start + BACKFILL_BATCH else |proxies|;
        ProxyChunks(proxies, start, end);
        BackfillTwice(t, Elements(proxies[..start]), Elements(proxies[start..end]), today);
        BackfillChunk(proxies[start..end], today);
        start := end;
      }
      assert proxies[..|proxies|] == proxies;
      backfilled := backfilled + Elements(proxies);
      BackfilledMeans(t, Elements(proxies), today);
    }

    // Routes that were never backfilled are, before any of their days is compacted.
    method CompactProxyDailyChecks(before: int, today: int, limit: int) returns (missing: seq<nat>, slots: set<Slot>)
      modifies `daily, `totals, `backfilled
      ensures LowestOf(missing, Unfilled(old(State()), before), BACKFILL_BATCH)
      ensures var filled := Backfilled(old(State()), Elements(missing), today);
              && EarliestOf(slots, Compactable(filled, before), if limit < 1 then 1 else limit)
              && State() == Compacted(filled, slots)
      ensures forall s | s in slots :: s.day < before && s.proxy in backfilled
      ensures |missing| == BACKFILL_BATCH || |slots| == (if limit < 1 then 1 else limit) || forall s | s in daily :: s.day >= before
    {
      hide Backfilled, Compacted, EarliestOf, Unfilled, Compactable;
      ghost var t := State();
      var unfilled := SortedIds(Unfilled(State(), before));
      missing := if |unfilled| <= BACKFILL_BATCH then unfilled else unfilled[..BACKFILL_BATCH];
      LowestPrefix(unfilled, missing, BACKFILL_BATCH);
      BackfillProxyDailyChecks(missing, today);
      ghost var filled := State();
      slots := ChooseSlots(Compactable(State(), before), if limit < 1 then 1 else limit);
      PassCompactsAll(t, before, today, missing, slots, if limit < 1 then 1 else limit);
      Fold(slots);
    }

    // The counts of one workspace, each part added up row by row.
    method QueryDashboardCheckCounts(owned: set<nat>, cutoff: int, today: int) returns (total: nat, week: nat)
      ensures total == QueryTotal(State(), owned, cutoff, today) && week == QueryWeek(State(), owned, cutoff, today)
    {
      var retained := AddUp(daily, AllSlots(daily, owned, today));
      var retainedWeek := AddUp(daily, RetainedSlots(daily, owned, DayOf(cutoff) + 1, today));
      var lifetime := AddUp(Counts(totals), owned * totals.Keys);
      var current, partial := |Today(raw, owned, cutoff, today)|, |Partial(raw, owned, cutoff)|;
      total := retained + lifetime + current;
      week := retainedWeek + partial + current;
    }
  }

  method AddUp<K(==, !new)>(m: map<K, nat>, keys: set<K>) returns (sum: nat)
    requires keys <= m.Keys
    ensures sum == Sum(m, keys)
  {
    sum := 0;
    var left := keys;
    while left != {}
      invariant left <= keys && sum + Sum(m, left) == Sum(m, keys)
      decreases |left|
    {
      var k :| k in left;
      SumWithout(m, left, k);
      sum, left := sum + m[k], left - {k};
    }
  }

  // A pass that meets neither of its limits leaves no day before the given one.
  lemma PassCompactsAll(t: Tables, before: int, today: int, missing: seq<nat>, slots: set<Slot>, limit: nat)
    requires LowestOf(missing, Unfilled(t, before), BACKFILL_BATCH)
    requires EarliestOf(slots, Compactable(Backfilled(t, Elements(missing), today), before), limit)
    ensures var filled := Backfilled(t, Elements(missing), today);
            && slots <= filled.daily.Keys && (forall s | s in slots :: s.day < before && s.proxy in filled.backfilled)
            && Compacted(filled, slots).backfilled == filled.backfilled
            && (|missing| == BACKFILL_BATCH || |slots| == limit || forall s | s in Compacted(filled, slots).daily :: s.day >= before)
  {
    hide TotalAfter;
    var filled := Backfilled(t, Elements(missing), today);
    if |missing| != BACKFILL_BATCH && |slots| != limit {
      forall s | s in filled.daily && s.day < before ensures s in slots {
        if s in t.daily && s.proxy !in t.backfilled { assert s.proxy in Unfilled(t, before); }
      }
    }
  }

  lemma FoldNothing(t: Tables)
    ensures Compacted(t, {}).totals == t.totals
  {
    forall p | p in t.totals ensures TotalAfter(t, {}, p) == t.totals[p] {
      assert Of({}, p) == {};
    }
    assert Proxies({}) == {};
  }

  lemma BackfillNothing(t: Tables, today: int)
    ensures Backfilled(t, {}, today).daily == t.daily
  {
    assert Eligible(t, {}, today) == {} && Slots({}) == {};
    forall s | s in t.daily ensures |In({}, s)| == 0 { assert In({}, s) == {}; }
  }

  lemma UpsertIsBackfill(t: Tables, proxies: set<nat>, today: int, counted: map<Slot, nat>)
    requires Aggregates(counted, Eligible(t, proxies, today))
    ensures (map s | s in t.daily.Keys + counted.Keys :: Max(Count(t.daily, s), Count(counted, s))) == Backfilled(t, proxies, today).daily
  {
  }

  lemma BackfilledMeans(t: Tables, proxies: set<nat>, today: int)
    ensures Backfilled(t, proxies, today) == t.(daily := Backfilled(t, proxies, today).daily, backfilled := t.backfilled + proxies)
  {
  }

  lemma ProxyChunks(proxies: seq<nat>, start: nat, end: nat)
    requires AllDifferent(proxies) && start <= end <= |proxies|
    ensures Elements(proxies[..start]) !! Elements(proxies[start..end])
    ensures Elements(proxies[..end]) == Elements(proxies[..start]) + Elements(proxies[start..end])
  {
    assert proxies[..end] == proxies[..start] + proxies[start..end];
  }

  // What a backfill of some routes counts for a slot.
  lemma EligibleIn(t: Tables, proxies: set<nat>, today: int, s: Slot)
    ensures In(Eligible(t, proxies, today), s) == if s.proxy in proxies then In(Eligible(t, {s.proxy}, today), s) else {}
  {
  }

  lemma BackfilledSlot(t: Tables, proxies: set<nat>, today: int, s: Slot)
    ensures s in Backfilled(t, proxies, today).daily <==> s in t.daily || In(Eligible(t, proxies, today), s) != {}
    ensures Count(Backfilled(t, proxies, today).daily, s) == Max(Count(t.daily, s), |In(Eligible(t, proxies, today), s)|)
  {
    var eligible := Eligible(t, proxies, today);
    assert s in Slots(eligible) <==> In(eligible, s) != {} by {
      if In(eligible, s) != {} { var c :| c in In(eligible, s); assert SlotOf(c) in Slots(eligible); }
      if s in Slots(eligible) { var c :| c in eligible && SlotOf(c) == s; assert c in In(eligible, s); }
    }
  }

  // Chunks count different routes, so they come to the same as one statement.
  lemma BackfillTwice(t: Tables, a: set<nat>, b: set<nat>, today: int)
    requires a !! b
    ensures Backfilled(t.(daily := Backfilled(t, a, today).daily), b, today).daily == Backfilled(t, a + b, today).daily
  {
    hide Backfilled, In;
    var first := t.(daily := Backfilled(t, a, today).daily);
    var twice, once := Backfilled(first, b, today).daily, Backfilled(t, a + b, today).daily;
    assert Eligible(first, b, today) == Eligible(t, b, today);
    forall s ensures (s in twice <==> s in once) && Count(twice, s) == Count(once, s) {
      BackfilledSlot(t, a, today, s);
      BackfilledSlot(first, b, today, s);
      BackfilledSlot(t, a + b, today, s);
      EligibleIn(t, a, today, s);
      EligibleIn(t, b, today, s);
      EligibleIn(t, a + b, today, s);
    }
    forall s | s in twice ensures twice[s] == once[s] {
      assert Count(twice, s) == Count(once, s);
    }
  }
}
