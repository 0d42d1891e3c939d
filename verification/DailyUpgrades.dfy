// Runs that start on an installation whose counters are younger than its history: exactly when the dashboard counts
// are the naive counts.
module DailyUpgrades {
  import opened Options
  import opened Sums
  import opened DailyChecks
  import opened DailyRuns

  ghost predicate LegalRun(w: World, events: seq<Event>)
    decreases |events|
  {
    events != [] ==> Legal(w, events[0]) && LegalRun(Next(w, events[0]), events[1..])
  }

  ghost function Outcome(w: World, events: seq<Event>): World
    requires LegalRun(w, events)
    decreases |events|
  {
    if events == [] then w else Outcome(Next(w, events[0]), events[1..])
  }

  // Nothing was ever backfilled or compacted. The counters count some of the accepted checks, for instance those
  // since the counters were introduced; the others are history that the counters do not know.
  ghost predicate Upgraded(w: World) {
    && w.tables.raw <= w.accepted && w.credited <= w.accepted && w.folded == {}
    && w.tables.totals == map[] && w.tables.backfilled == {}
    && forall s :: Count(w.tables.daily, s) == |In(Countable(w.credited), s)|
  }

  lemma UpgradedIsExact(w: World)
    requires Upgraded(w)
    ensures Exact(w)
  {
    forall s ensures ExactSlot(w, s) { assert In(Unfolded(w), s) == In(Countable(w.credited), s); }
    forall proxy ensures ExactTotal(w, proxy) { assert FoldedOf(w, proxy) == {}; }
  }

  const EMPTY := World(Tables({}, map[], map[], {}), {}, {}, {})

  lemma EmptyIsUpgraded()
    ensures Upgraded(EMPTY)
  {
    forall s ensures |In(Countable({}), s)| == 0 { assert In(Countable({}), s) == {}; }
  }

  lemma StepKeepsExact(w: World, e: Event)
    requires Exact(w) && Legal(w, e)
    ensures Exact(Next(w, e))
  {
    match e
    case Accept(checks) => AcceptKeepsExact(w, checks);
    case Backfill(proxies, today) => BackfillKeepsExact(w, proxies, today);
    case Compact(before, slots) => CompactKeepsExact(w, before, slots);
    case DeleteRaw(gone) => DeleteKeepsExact(w, gone);
  }

  // Compactions that stay below a day fold only checks below it.
  ghost predicate CompactsBelow(events: seq<Event>, day: int) {
    forall k | 0 <= k < |events| && events[k].Compact? :: events[k].before <= day
  }

  lemma {:induction false} RunKeepsExact(w: World, events: seq<Event>, day: int)
    requires Exact(w) && LegalRun(w, events) && CompactsBelow(events, day) && forall c | c in w.folded :: DayOf(c.time) < day
    ensures Exact(Outcome(w, events)) && forall c | c in Outcome(w, events).folded :: DayOf(c.time) < day
    decreases |events|
  {
    if events != [] {
      StepKeepsExact(w, events[0]);
      assert CompactsBelow(events[1..], day) by { assert forall k | 0 <= k < |events[1..]| :: events[1..][k] == events[k + 1]; }
      forall c | c in Next(w, events[0]).folded ensures DayOf(c.time) < day {
      }
      RunKeepsExact(Next(w, events[0]), events[1..], day);
    }
  }

  // ---- Which days are counted in full -----------------------------------------------------------------------------

  ghost predicate Full(w: World, s: Slot) {
    forall c | c in w.accepted && SlotOf(c) == s :: c in w.credited
  }

  // The route's backfill comes on a later day and finds the whole history of the day.
  ghost predicate Fills(w: World, e: Event, s: Slot) {
    e.Backfill? && s.proxy in e.proxies && s.day < e.today && In(w.accepted, s) <= w.tables.raw
  }

  ghost predicate Filled(w: World, events: seq<Event>, s: Slot)
    requires LegalRun(w, events)
    decreases |events|
  {
    events != [] && (Fills(w, events[0], s) || Filled(Next(w, events[0]), events[1..], s))
  }

  // What a backfill may count of a day of one of its routes is the whole retained history, if the day has passed.
  lemma EligibleHistory(w: World, proxies: set<nat>, today: int, s: Slot)
    requires Exact(w) && Legal(w, Backfill(proxies, today))
    ensures In(Eligible(w.tables, proxies, today), s) == if s.proxy in proxies && s.day < today then In(w.tables.raw, s) else {}
  {
  }

  lemma BackfillFills(w: World, proxies: set<nat>, today: int, s: Slot)
    requires Exact(w) && Legal(w, Backfill(proxies, today))
    ensures Full(Next(w, Backfill(proxies, today)), s) <==> Full(w, s) || Fills(w, Backfill(proxies, today), s)
  {
    var next := Next(w, Backfill(proxies, today));
    var history, all, known := In(Eligible(w.tables, proxies, today), s), In(w.accepted, s), In(w.credited, s);
    EligibleHistory(w, proxies, today, s);
    assert history <= all && known <= all;
    assert forall c | c in w.accepted && SlotOf(c) == s :: c in all;
    assert Full(w, s) <==> known == all;
    if s.proxy in proxies {
      UnmarkedIsUnfolded(w, s);
      assert ExactSlot(w, s);
      Subset(history, all);
      Subset(known, all);
      if Overtakes(w, proxies, today, s) {
        assert In(next.credited, s) == history;
        assert Full(next, s) <==> history == all;
      } else {
        assert In(next.credited, s) == known;
        if history == all { SameSize(known, all); }
      }
    } else {
      assert In(next.credited, s) == known;
    }
  }

  // On a day of one of its routes, a backfill makes the counter the number of accepted checks exactly if it was that
  // number before, or the day has passed and its whole history is there.
  lemma BackfillRepairs(w: World, proxies: set<nat>, today: int, s: Slot)
    requires Exact(w) && Legal(w, Backfill(proxies, today)) && s.proxy in proxies
    ensures Count(Backfilled(w.tables, proxies, today).daily, s) == |In(w.accepted, s)| <==>
            Count(w.tables.daily, s) == |In(w.accepted, s)| || (s.day < today && In(w.accepted, s) <= w.tables.raw)
  {
    var next := Next(w, Backfill(proxies, today));
    BackfillFills(w, proxies, today, s);
    BackfillKeepsSlot(w, proxies, today, s);
    UnmarkedIsUnfolded(w, s);
    FullBySize(w, s);
    assert forall c | c in next.credited && SlotOf(c) == s && c in w.folded :: c in In(w.folded, s);
    assert In(Unfolded(next), s) == In(next.credited, s);
    assert next.credited <= next.accepted;
    FullBySize(next, s);
    assert ExactSlot(w, s);
  }

  lemma FullBySize(w: World, s: Slot)
    requires w.credited <= w.accepted
    ensures Full(w, s) <==> |In(w.credited, s)| == |In(w.accepted, s)|
  {
    var known, all := In(w.credited, s), In(w.accepted, s);
    assert known <= all && forall c | c in w.accepted && SlotOf(c) == s :: c in all;
    if |known| == |all| { SameSize(known, all); }
    if Full(w, s) { assert known == all; }
  }

  lemma SameSize(a: set<Check>, b: set<Check>)
    requires a <= b && |a| >= |b|
    ensures a == b
  {
    assert b == a + (b - a);
  }

  lemma StepFills(w: World, e: Event, s: Slot)
    requires Exact(w) && Legal(w, e)
    ensures Full(Next(w, e), s) <==> Full(w, s) || Fills(w, e, s)
  {
    if e.Backfill? { BackfillFills(w, e.proxies, e.today, s); }
  }

  // A day is counted in full after a run exactly if it was before, or a backfill of its route filled it.
  lemma {:induction false} RunFills(w: World, events: seq<Event>, s: Slot)
    requires Exact(w) && LegalRun(w, events)
    ensures Full(Outcome(w, events), s) <==> Full(w, s) || Filled(w, events, s)
    decreases |events|
  {
    if events != [] {
      StepKeepsExact(w, events[0]);
      StepFills(w, events[0], s);
      RunFills(Next(w, events[0]), events[1..], s);
    }
  }

  // ---- The dashboard counts ---------------------------------------------------------------------------------------

  ghost predicate HistoryIntact(w: World, owned: set<nat>, cutoff: int, today: int) {
    forall c | c in w.accepted && c.proxy in owned && c.time >= cutoff && (DayOf(c.time) == DayOf(cutoff) || DayOf(c.time) >= today) ::
      c in w.tables.raw
  }

  // What a reading of the counts asks for: compaction stays below the week window, and the boundary days keep their
  // raw history. Checks may be late, and clocks may go back.
  ghost predicate Reads(start: World, events: seq<Event>, owned: set<nat>, cutoff: int, today: int) {
    && Upgraded(start) && LegalRun(start, events) && CompactsBelow(events, DayOf(cutoff) + 1)
    && 0 !in owned && DayOf(cutoff) + 1 <= today && HistoryIntact(Outcome(start, events), owned, cutoff, today)
  }

  // The checks that the counters did not know at the start.
  ghost function Unknown(w: World): set<Check> {
    w.accepted - w.credited
  }

  // A check is lost in the end exactly if its day was not full at the start and no backfill filled it.
  lemma LostDay(w: World, events: seq<Event>, c: Check)
    requires Exact(w) && LegalRun(w, events) && c in Outcome(w, events).accepted && c !in Outcome(w, events).credited
    ensures exists unknown :: unknown in Unknown(w) && SlotOf(unknown) == SlotOf(c) && !Filled(w, events, SlotOf(unknown))
  {
    RunFills(w, events, SlotOf(c));
    var unknown :| unknown in w.accepted && SlotOf(unknown) == SlotOf(c) && unknown !in w.credited;
    assert unknown in Unknown(w);
  }

  lemma UnfilledDay(w: World, events: seq<Event>, unknown: Check)
    requires Exact(w) && LegalRun(w, events) && unknown in Unknown(w) && !Filled(w, events, SlotOf(unknown))
    ensures exists c :: c in Outcome(w, events).accepted && c !in Outcome(w, events).credited && SlotOf(c) == SlotOf(unknown)
  {
    RunFills(w, events, SlotOf(unknown));
  }

  // Total and week are the naive counts exactly if every day of an owned route that they take from the counters, and
  // that has history the counters did not know, was filled by the route's backfill.
  lemma DashboardCountsAreNaiveExactly(start: World, events: seq<Event>, owned: set<nat>, cutoff: int, today: int)
    requires Reads(start, events, owned, cutoff, today)
    ensures var w := Outcome(start, events);
            && (QueryTotal(w.tables, owned, cutoff, today) == NaiveTotal(w.accepted, owned) <==>
                forall c | c in Unknown(start) && c.proxy in owned && DayOf(c.time) < today :: Filled(start, events, SlotOf(c)))
            && (QueryWeek(w.tables, owned, cutoff, today) == NaiveWeek(w.accepted, owned, cutoff) <==>
                forall c | c in Unknown(start) && c.proxy in owned && DayOf(cutoff) < DayOf(c.time) < today ::
                  Filled(start, events, SlotOf(c)))
  {
    hide DayOf, Filled, Exact, QueryTotal, QueryWeek, NaiveTotal, NaiveWeek, Outcome;
    var w := Outcome(start, events);
    UpgradedIsExact(start);
    RunKeepsExact(start, events, DayOf(cutoff) + 1);
    TotalShortfall(w, owned, cutoff, today);
    WeekShortfall(w, owned, cutoff, today);
    LostExactly(start, events, owned, today);
    LostSinceExactly(start, events, owned, DayOf(cutoff) + 1, today);
  }

  lemma LostExactly(start: World, events: seq<Event>, owned: set<nat>, to: int)
    requires Exact(start) && LegalRun(start, events)
    ensures Lost(Outcome(start, events), owned, to) == {} <==>
            forall c | c in Unknown(start) && c.proxy in owned && DayOf(c.time) < to :: Filled(start, events, SlotOf(c))
  {
    hide Filled, Exact, Outcome;
    var lost := Lost(Outcome(start, events), owned, to);
    if c :| c in lost {
      LostDay(start, events, c);
    }
    if c :| c in Unknown(start) && c.proxy in owned && DayOf(c.time) < to && !Filled(start, events, SlotOf(c)) {
      UnfilledDay(start, events, c);
      var other :| other in Outcome(start, events).accepted && other !in Outcome(start, events).credited && SlotOf(other) == SlotOf(c);
      assert other in lost;
    }
  }

  lemma LostSinceExactly(start: World, events: seq<Event>, owned: set<nat>, from: int, to: int)
    requires Exact(start) && LegalRun(start, events)
    ensures LostSince(Outcome(start, events), owned, from, to) == {} <==>
            forall c | c in Unknown(start) && c.proxy in owned && from <= DayOf(c.time) < to :: Filled(start, events, SlotOf(c))
  {
    hide Filled, Exact, Outcome;
    var lost := LostSince(Outcome(start, events), owned, from, to);
    if c :| c in lost {
      LostDay(start, events, c);
    }
    if c :| c in Unknown(start) && c.proxy in owned && from <= DayOf(c.time) < to && !Filled(start, events, SlotOf(c)) {
      UnfilledDay(start, events, c);
      var other :| other in Outcome(start, events).accepted && other !in Outcome(start, events).credited && SlotOf(other) == SlotOf(c);
      assert other in lost;
    }
  }

  // ---- When the history is kept until the backfill ------------------------------------------------------------------

  // The days of unmarked routes that are not counted in full still have their whole history.
  ghost predicate Whole(w: World) {
    forall c | c in w.accepted && c.proxy !in w.tables.backfilled && !Full(w, SlotOf(c)) :: c in w.tables.raw
  }

  // And no deletion takes any of it.
  ghost predicate KeepsHistory(w: World, events: seq<Event>)
    requires LegalRun(w, events)
    decreases |events|
  {
    events != [] ==>
      && (events[0].DeleteRaw? ==> forall c | c in events[0].gone :: c.proxy in w.tables.backfilled || Full(w, SlotOf(c)))
      && KeepsHistory(Next(w, events[0]), events[1..])
  }

  // The route's backfill comes on a later day.
  ghost predicate BackfilledLater(events: seq<Event>, s: Slot) {
    exists k :: 0 <= k < |events| && events[k].Backfill? && s.proxy in events[k].proxies && s.day < events[k].today
  }

  lemma StepKeepsWhole(w: World, e: Event)
    requires Exact(w) && Legal(w, e) && Whole(w)
    requires e.DeleteRaw? ==> forall c | c in e.gone :: c.proxy in w.tables.backfilled || Full(w, SlotOf(c))
    ensures Whole(Next(w, e))
  {
    var next := Next(w, e);
    forall c | c in next.accepted && c.proxy !in next.tables.backfilled && !Full(next, SlotOf(c)) ensures c in next.tables.raw {
      StepFills(w, e, SlotOf(c));
    }
  }

  lemma LaterInRest(events: seq<Event>, s: Slot)
    requires events != []
    ensures BackfilledLater(events, s) <==>
            BackfilledLater(events[1..], s) || (events[0].Backfill? && s.proxy in events[0].proxies && s.day < events[0].today)
  {
    if BackfilledLater(events[1..], s) {
      var k :| 0 <= k < |events[1..]| && events[1..][k].Backfill? && s.proxy in events[1..][k].proxies && s.day < events[1..][k].today;
      assert events[k + 1] == events[1..][k];
    }
    if BackfilledLater(events, s) {
      var k :| 0 <= k < |events| && events[k].Backfill? && s.proxy in events[k].proxies && s.day < events[k].today;
      if k > 0 { assert events[1..][k - 1] == events[k]; }
    }
  }

  lemma {:induction false} MarkedIsNeverFilled(w: World, events: seq<Event>, s: Slot)
    requires LegalRun(w, events) && s.proxy in w.tables.backfilled
    ensures !Filled(w, events, s) && !BackfilledLater(events, s)
    decreases |events|
  {
    if events != [] {
      MarkedIsNeverFilled(Next(w, events[0]), events[1..], s);
      LaterInRest(events, s);
    }
  }

  // Then only the day of the backfill matters.
  lemma {:induction false} FilledByDay(w: World, events: seq<Event>, s: Slot)
    requires Exact(w) && LegalRun(w, events) && Whole(w) && KeepsHistory(w, events)
    requires s.proxy !in w.tables.backfilled && !Full(w, s)
    ensures Filled(w, events, s) <==> BackfilledLater(events, s)
    decreases |events|
  {
    if events != [] {
      var next := Next(w, events[0]);
      StepKeepsExact(w, events[0]);
      StepKeepsWhole(w, events[0]);
      StepFills(w, events[0], s);
      LaterInRest(events, s);
      if s.proxy in next.tables.backfilled {
        MarkedIsNeverFilled(next, events[1..], s);
        assert In(w.accepted, s) <= w.tables.raw;
      } else {
        FilledByDay(next, events[1..], s);
      }
    }
  }

  // With the history kept until the backfill, the counts are naive exactly if every owned route was backfilled on a
  // day after each of its days that have history the counters did not know and that are read from the counters.
  lemma BackfillDayDecides(start: World, events: seq<Event>, owned: set<nat>, cutoff: int, today: int)
    requires Reads(start, events, owned, cutoff, today) && Whole(start) && KeepsHistory(start, events)
    ensures var w := Outcome(start, events);
            && (QueryTotal(w.tables, owned, cutoff, today) == NaiveTotal(w.accepted, owned) <==>
                forall c | c in Unknown(start) && c.proxy in owned && DayOf(c.time) < today :: BackfilledLater(events, SlotOf(c)))
            && (QueryWeek(w.tables, owned, cutoff, today) == NaiveWeek(w.accepted, owned, cutoff) <==>
                forall c | c in Unknown(start) && c.proxy in owned && DayOf(cutoff) < DayOf(c.time) < today ::
                  BackfilledLater(events, SlotOf(c)))
  {
    hide DayOf, Filled, QueryTotal, QueryWeek, NaiveTotal, NaiveWeek, Outcome, BackfilledLater;
    UpgradedIsExact(start);
    DashboardCountsAreNaiveExactly(start, events, owned, cutoff, today);
    forall c | c in Unknown(start) && c.proxy in owned ensures Filled(start, events, SlotOf(c)) <==> BackfilledLater(events, SlotOf(c)) {
      FilledByDay(start, events, SlotOf(c));
    }
  }

  // In particular an installation that has counted from its first check shows the naive counts in every run.
  lemma DashboardCountsAreNaive(events: seq<Event>, owned: set<nat>, cutoff: int, today: int)
    requires LegalRun(EMPTY, events) && CompactsBelow(events, DayOf(cutoff) + 1)
    requires 0 !in owned && DayOf(cutoff) + 1 <= today && HistoryIntact(Outcome(EMPTY, events), owned, cutoff, today)
    ensures var w := Outcome(EMPTY, events);
            && QueryTotal(w.tables, owned, cutoff, today) == NaiveTotal(w.accepted, owned)
            && QueryWeek(w.tables, owned, cutoff, today) == NaiveWeek(w.accepted, owned, cutoff)
  {
    EmptyIsUpgraded();
    DashboardCountsAreNaiveExactly(EMPTY, events, owned, cutoff, today);
  }

  // ---- Where it fails -----------------------------------------------------------------------------------------------

  // One check of any route, older than the counters.
  ghost function OldCheck(c: Check): World {
    World(Tables({c}, map[], map[], {}), {c}, {}, {})
  }

  ghost function SameDay(c: Check): seq<Event> {
    [Backfill({c.proxy}, DayOf(c.time))]
  }

  lemma OldCheckIsUpgraded(c: Check)
    ensures Upgraded(OldCheck(c)) && Whole(OldCheck(c))
  {
    forall s ensures |In(Countable({}), s)| == 0 { assert In(Countable({}), s) == {}; }
  }

  lemma SameDayRun(c: Check)
    requires c.proxy != 0
    ensures var start := OldCheck(c);
            && LegalRun(start, SameDay(c)) && KeepsHistory(start, SameDay(c))
            && Outcome(start, SameDay(c)) == Next(start, SameDay(c)[0])
  {
    assert SameDay(c)[1..] == [];
  }

  // If the route is backfilled on the very day of the check, the route is marked, the history is still there, and
  // yet the check is missing from the counts of every later day.
  lemma SameDayBackfillLoses(c: Check, cutoff: int, today: int)
    requires c.proxy != 0 && DayOf(cutoff) < DayOf(c.time) < today
    ensures var start, events := OldCheck(c), SameDay(c);
            && Reads(start, events, {c.proxy}, cutoff, today) && Whole(start) && KeepsHistory(start, events)
            && c.proxy in Outcome(start, events).tables.backfilled && c in Outcome(start, events).tables.raw
            && Outcome(start, events).accepted == {c}
            && QueryTotal(Outcome(start, events).tables, {c.proxy}, cutoff, today) == 0
            && QueryWeek(Outcome(start, events).tables, {c.proxy}, cutoff, today) == 0
            && NaiveTotal({c}, {c.proxy}) == NaiveWeek({c}, {c.proxy}, cutoff) == 1
  {
    hide QueryTotal, QueryWeek, Exact, Upgraded, Whole, LegalRun, KeepsHistory, Outcome, CreditedBy, Backfilled;
    var start, events := OldCheck(c), SameDay(c);
    OldCheckIsUpgraded(c);
    SameDayRun(c);
    var w := Outcome(start, events);
    SameDayState(c);
    UpgradedIsExact(start);
    StepKeepsExact(start, events[0]);
    LaterDay(c.time, cutoff);
    TotalShortfall(w, {c.proxy}, cutoff, today);
    WeekShortfall(w, {c.proxy}, cutoff, today);
    assert Owned({c}, {c.proxy}) == {c} && Lost(w, {c.proxy}, today) == {c};
    assert LostSince(w, {c.proxy}, DayOf(cutoff) + 1, today) == {c};
    assert (set x | x in Owned({c}, {c.proxy}) && x.time >= cutoff) == {c};
  }

  lemma SameDayState(c: Check)
    requires c.proxy != 0
    ensures var w := Next(OldCheck(c), SameDay(c)[0]);
            && w.accepted == w.tables.raw == {c} && w.credited == {} && w.folded == {} && c.proxy in w.tables.backfilled
  {
    var start := OldCheck(c);
    var eligible := Eligible(start.tables, {c.proxy}, DayOf(c.time));
    assert c !in eligible && c !in start.credited;
  }

  // For instance a check at midnight of day 5, and a backfill on that day.
  lemma ConcreteLoss()
    ensures var c := Check(1, 1, 5 * DAY);
            var start, events := OldCheck(c), [Backfill({1}, 5)];
            && Reads(start, events, {1}, 4 * DAY, 6)
            && QueryTotal(Outcome(start, events).tables, {1}, 4 * DAY, 6) == 0 && NaiveTotal(Outcome(start, events).accepted, {1}) == 1
  {
    hide Reads, QueryTotal, NaiveTotal, Outcome, OldCheck, LegalRun;
    assert DayOf(4 * DAY) == 4 && DayOf(5 * DAY) == 5;
    SameDayBackfillLoses(Check(1, 1, 5 * DAY), 4 * DAY, 6);
  }
}
