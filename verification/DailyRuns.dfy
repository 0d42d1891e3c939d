// What every step on the counter tables keeps, and how far the dashboard counts can fall short of the naive ones.
module DailyRuns {
  import opened Options
  import opened Sums
  import opened DailyChecks

  // The tables, every check ever accepted, those among them that counters and lifetime totals stand for, and
  // those that lifetime totals stand for. History older than the counters is accepted, but not credited.
  datatype World = World(tables: Tables, accepted: set<Check>, credited: set<Check>, folded: set<Check>)

  datatype Event =
    | Accept(checks: set<Check>)                        // history and counters in one transaction
    | Backfill(proxies: set<nat>, today: int)
    | Compact(before: int, slots: set<Slot>)
    | DeleteRaw(gone: set<Check>)

  // A backfill takes routes without a marker only. Routes have positive ids.
  ghost predicate Legal(w: World, e: Event) {
    match e
    case Accept(checks) => checks !! w.accepted
    case Backfill(proxies, _) => 0 !in proxies && proxies !! w.tables.backfilled
    case Compact(before, slots) =>
      slots <= w.tables.daily.Keys && forall s | s in slots :: s.day < before && s.proxy in w.tables.backfilled
    case DeleteRaw(_) => true
  }

  ghost function FoldedBy(w: World, slots: set<Slot>): set<Check> {
    set c | c in w.credited && c !in w.folded && c.proxy != 0 && SlotOf(c) in slots
  }

  // The retained history of a day is more than its counter.
  ghost predicate Overtakes(w: World, proxies: set<nat>, today: int, s: Slot) {
    |In(Eligible(w.tables, proxies, today), s)| > Count(w.tables.daily, s)
  }

  // Where the history is more, a backfill makes the counter stand for exactly the history.
  ghost function CreditedBy(w: World, proxies: set<nat>, today: int): set<Check> {
    set c | c in w.accepted &&
            if Overtakes(w, proxies, today, SlotOf(c)) then c in Eligible(w.tables, proxies, today) else c in w.credited
  }

  ghost function Next(w: World, e: Event): World
    requires Legal(w, e)
  {
    match e
    case Accept(checks) =>
      World(w.tables.(raw := w.tables.raw + checks, daily := Incremented(w.tables.daily, Countable(checks))),
            w.accepted + checks, w.credited + checks, w.folded)
    case Backfill(proxies, today) =>
      w.(tables := Backfilled(w.tables, proxies, today), credited := CreditedBy(w, proxies, today))
    case Compact(before, slots) => w.(tables := Compacted(w.tables, slots), folded := w.folded + FoldedBy(w, slots))
    case DeleteRaw(gone) => w.(tables := w.tables.(raw := w.tables.raw - gone))
  }

  // ---- Counters and totals count what is credited ---------------------------------------------------------------

  ghost function Unfolded(w: World): set<Check> {
    set c | c in w.credited && c !in w.folded && c.proxy != 0
  }

  ghost predicate ExactSlot(w: World, s: Slot) {
    Count(w.tables.daily, s) == |In(Unfolded(w), s)|
  }

  ghost function FoldedOf(w: World, proxy: nat): set<Check> {
    set c | c in w.folded && c.proxy == proxy
  }

  ghost predicate ExactTotal(w: World, proxy: nat) {
    && (if proxy in w.tables.totals then w.tables.totals[proxy].count else 0) == |FoldedOf(w, proxy)|
    && forall c | c in FoldedOf(w, proxy) :: proxy in w.tables.totals && DayOf(c.time) < w.tables.totals[proxy].compactedBefore
  }

  ghost predicate Exact(w: World) {
    && w.tables.raw <= w.accepted && w.credited <= w.accepted && w.folded <= w.credited
    && w.tables.totals.Keys <= w.tables.backfilled
    && (forall c | c in w.folded :: c.proxy != 0)
    && (forall s :: ExactSlot(w, s))
    && (forall proxy :: ExactTotal(w, proxy))
  }

  lemma AcceptKeepsSlot(w: World, checks: set<Check>, s: Slot)
    requires Exact(w) && Legal(w, Accept(checks))
    ensures ExactSlot(Next(w, Accept(checks)), s)
  {
    var next := Next(w, Accept(checks));
    assert ExactSlot(w, s);
    var more := In(Countable(checks), s);
    assert In(Unfolded(next), s) == In(Unfolded(w), s) + more;
    assert In(Unfolded(w), s) !! more;
    if s !in Slots(Countable(checks)) {
      assert more == {} by { assert forall c | c in more :: SlotOf(c) in Slots(Countable(checks)); }
    }
  }

  lemma AcceptKeepsExact(w: World, checks: set<Check>)
    requires Exact(w) && Legal(w, Accept(checks))
    ensures Exact(Next(w, Accept(checks)))
  {
    var next := Next(w, Accept(checks));
    forall s { AcceptKeepsSlot(w, checks, s); }
    forall proxy ensures ExactTotal(next, proxy) {
      assert ExactTotal(w, proxy);
      assert FoldedOf(next, proxy) == FoldedOf(w, proxy);
    }
  }

  lemma Subset(a: set<Check>, b: set<Check>)
    requires a <= b
    ensures |a| <= |b|
  {
    assert b == a + (b - a);
  }

  // A route without a marker has no total yet, so nothing of it is folded.
  lemma UnmarkedIsUnfolded(w: World, s: Slot)
    requires Exact(w) && s.proxy !in w.tables.backfilled && s.proxy != 0
    ensures In(w.folded, s) == {} && In(Unfolded(w), s) == In(w.credited, s)
  {
    assert ExactTotal(w, s.proxy);
    assert forall c | c in In(w.folded, s) :: c in FoldedOf(w, s.proxy);
  }

  lemma OvertakesIsUnfolded(w: World, proxies: set<nat>, today: int, s: Slot)
    requires Exact(w) && Legal(w, Backfill(proxies, today)) && Overtakes(w, proxies, today, s)
    ensures s.proxy in proxies && s.proxy != 0 && In(w.folded, s) == {} && In(Unfolded(w), s) == In(w.credited, s)
  {
    var c :| c in In(Eligible(w.tables, proxies, today), s);
    UnmarkedIsUnfolded(w, s);
  }

  lemma BackfillKeepsSlot(w: World, proxies: set<nat>, today: int, s: Slot)
    requires Exact(w) && Legal(w, Backfill(proxies, today))
    ensures ExactSlot(Next(w, Backfill(proxies, today)), s)
  {
    var next := Next(w, Backfill(proxies, today));
    var eligible := Eligible(w.tables, proxies, today);
    assert ExactSlot(w, s);
    if s !in Slots(eligible) {
      assert In(eligible, s) == {} by { assert forall c | c in In(eligible, s) :: SlotOf(c) in Slots(eligible); }
    }
    if Overtakes(w, proxies, today, s) {
      OvertakesIsUnfolded(w, proxies, today, s);
      forall c | c in In(eligible, s) ensures c in In(Unfolded(next), s) {
        assert c in w.folded ==> c in In(w.folded, s);
      }
      assert In(Unfolded(next), s) == In(eligible, s);
    } else {
      assert In(Unfolded(next), s) == In(Unfolded(w), s);
    }
  }

  lemma BackfillKeepsExact(w: World, proxies: set<nat>, today: int)
    requires Exact(w) && Legal(w, Backfill(proxies, today))
    ensures Exact(Next(w, Backfill(proxies, today)))
  {
    var next := Next(w, Backfill(proxies, today));
    forall c | c in w.folded ensures c in next.credited {
      assert c in In(w.folded, SlotOf(c));
      assert !Overtakes(w, proxies, today, SlotOf(c)) by {
        if Overtakes(w, proxies, today, SlotOf(c)) { OvertakesIsUnfolded(w, proxies, today, SlotOf(c)); }
      }
    }
    forall s { BackfillKeepsSlot(w, proxies, today, s); }
    forall proxy ensures ExactTotal(next, proxy) {
      assert ExactTotal(w, proxy);
      assert FoldedOf(next, proxy) == FoldedOf(w, proxy);
    }
  }

  lemma CompactKeepsSlot(w: World, before: int, slots: set<Slot>, s: Slot)
    requires Exact(w) && Legal(w, Compact(before, slots))
    ensures ExactSlot(Next(w, Compact(before, slots)), s)
  {
    var next := Next(w, Compact(before, slots));
    assert ExactSlot(w, s);
    if s in slots {
      assert In(Unfolded(next), s) == {};
    } else {
      assert In(Unfolded(next), s) == In(Unfolded(w), s);
    }
  }

  lemma CompactKeepsTotal(w: World, before: int, slots: set<Slot>, proxy: nat)
    requires Exact(w) && Legal(w, Compact(before, slots))
    ensures ExactTotal(Next(w, Compact(before, slots)), proxy)
  {
    hide Sum, DayOf, ExactSlot, After, SomeDay;
    var next := Next(w, Compact(before, slots));
    var mine := Of(slots, proxy);
    assert ExactTotal(w, proxy);
    DailySum(w, mine);
    var moved := Fibers(Unfolded(w), SlotOf, mine);
    assert FoldedOf(next, proxy) == FoldedOf(w, proxy) + moved;
    assert FoldedOf(w, proxy) !! moved;
    if proxy !in Proxies(slots) {
      assert mine == {} by { assert forall s | s in mine :: s.proxy in Proxies(slots); }
      assert moved == {};
    }
    forall c | c in FoldedOf(next, proxy)
      ensures proxy in next.tables.totals && DayOf(c.time) < next.tables.totals[proxy].compactedBefore
    {
      if c in moved {
        assert SlotOf(c) in mine && SlotOf(c).proxy in Proxies(slots);
      }
    }
  }

  lemma CompactKeepsExact(w: World, before: int, slots: set<Slot>)
    requires Exact(w) && Legal(w, Compact(before, slots))
    ensures Exact(Next(w, Compact(before, slots)))
  {
    forall s { CompactKeepsSlot(w, before, slots, s); }
    forall proxy { CompactKeepsTotal(w, before, slots, proxy); }
  }

  lemma DeleteKeepsExact(w: World, gone: set<Check>)
    requires Exact(w)
    ensures Exact(Next(w, DeleteRaw(gone)))
  {
    var next := Next(w, DeleteRaw(gone));
    forall s ensures ExactSlot(next, s) {
      assert ExactSlot(w, s);
      assert Unfolded(next) == Unfolded(w);
    }
    forall proxy ensures ExactTotal(next, proxy) {
      assert ExactTotal(w, proxy);
      assert FoldedOf(next, proxy) == FoldedOf(w, proxy);
    }
  }

  // ---- The counts ---------------------------------------------------------------------------------------------

  function ProxyOf(c: Check): nat { c.proxy }

  // No compaction has reached the week window, and the days that are read raw still have their history.
  ghost predicate Readable(w: World, owned: set<nat>, cutoff: int, today: int) {
    && 0 !in owned && DayOf(cutoff) + 1 <= today
    && (forall c | c in w.folded :: DayOf(c.time) < DayOf(cutoff) + 1)
    && (forall c | c in w.accepted && c.proxy in owned && c.time >= cutoff && (DayOf(c.time) == DayOf(cutoff) || DayOf(c.time) >= today) ::
          c in w.tables.raw)
  }

  lemma LaterDay(a: int, b: int)
    requires DayOf(a) > DayOf(b)
    ensures a > b
  {
  }

  // What a range of daily rows adds up to: the unfolded checks of those days.
  lemma DailySum(w: World, slots: set<Slot>)
    requires Exact(w) && slots <= w.tables.daily.Keys
    ensures Sum(w.tables.daily, slots) == |Fibers(Unfolded(w), SlotOf, slots)|
  {
    forall s | s in slots ensures w.tables.daily[s] == |Fiber(Unfolded(w), SlotOf, s)| {
      assert ExactSlot(w, s);
      assert Fiber(Unfolded(w), SlotOf, s) == In(Unfolded(w), s);
    }
    SumOfFibers(w.tables.daily, slots, Unfolded(w), SlotOf);
  }

  lemma TotalsSum(w: World, owned: set<nat>)
    requires Exact(w)
    ensures Sum(Counts(w.tables.totals), owned * w.tables.totals.Keys) == |Owned(w.folded, owned)|
  {
    var keys := owned * w.tables.totals.Keys;
    forall p | p in keys ensures Counts(w.tables.totals)[p] == |Fiber(w.folded, ProxyOf, p)| {
      assert ExactTotal(w, p);
      assert Fiber(w.folded, ProxyOf, p) == FoldedOf(w, p);
    }
    SumOfFibers(Counts(w.tables.totals), keys, w.folded, ProxyOf);
    forall c | c in Owned(w.folded, owned) ensures c in Fibers(w.folded, ProxyOf, keys) {
      assert ExactTotal(w, c.proxy) && c in FoldedOf(w, c.proxy);
    }
    assert Fibers(w.folded, ProxyOf, keys) == Owned(w.folded, owned);
  }

  lemma UnfoldedHasRow(w: World, c: Check)
    requires Exact(w) && c in Unfolded(w)
    ensures SlotOf(c) in w.tables.daily
  {
    assert ExactSlot(w, SlotOf(c));
    assert c in In(Unfolded(w), SlotOf(c));
  }

  // The credited checks of the owned routes on the days in a range.
  ghost function OnDays(w: World, owned: set<nat>, from: int, to: int): set<Check> {
    set c | c in w.credited && c !in w.folded && c.proxy in owned && from <= DayOf(c.time) < to
  }

  lemma KeptOnDays(w: World, owned: set<nat>, from: int, to: int)
    requires Exact(w) && 0 !in owned
    ensures Fibers(Unfolded(w), SlotOf, RetainedSlots(w.tables.daily, owned, from, to)) == OnDays(w, owned, from, to)
  {
    forall c | c in OnDays(w, owned, from, to) ensures SlotOf(c) in w.tables.daily {
      UnfoldedHasRow(w, c);
    }
  }

  ghost function Before(w: World, owned: set<nat>, to: int): set<Check> {
    set c | c in w.credited && c !in w.folded && c.proxy in owned && DayOf(c.time) < to
  }

  lemma KeptBefore(w: World, owned: set<nat>, to: int)
    requires Exact(w) && 0 !in owned
    ensures Fibers(Unfolded(w), SlotOf, AllSlots(w.tables.daily, owned, to)) == Before(w, owned, to)
  {
    forall c | c in Before(w, owned, to) ensures SlotOf(c) in w.tables.daily {
      UnfoldedHasRow(w, c);
    }
  }

  ghost function Since(w: World, owned: set<nat>, from: int): set<Check> {
    set c | c in w.accepted && c.proxy in owned && DayOf(c.time) >= from
  }

  lemma CurrentIsSince(w: World, owned: set<nat>, cutoff: int, today: int)
    requires Exact(w) && Readable(w, owned, cutoff, today)
    ensures Today(w.tables.raw, owned, cutoff, today) == Since(w, owned, today)
  {
    forall c: Check | DayOf(c.time) >= today ensures c.time > cutoff { LaterDay(c.time, cutoff); }
  }

  // The accepted checks of a day range that no counter and no total stands for.
  ghost function Lost(w: World, owned: set<nat>, to: int): set<Check> {
    set c | c in w.accepted && c !in w.credited && c.proxy in owned && DayOf(c.time) < to
  }

  ghost function LostSince(w: World, owned: set<nat>, from: int, to: int): set<Check> {
    set c | c in w.accepted && c !in w.credited && c.proxy in owned && from <= DayOf(c.time) < to
  }

  // The total never counts twice, and falls short by exactly the checks of past days that are not credited.
  lemma TotalShortfall(w: World, owned: set<nat>, cutoff: int, today: int)
    requires Exact(w) && Readable(w, owned, cutoff, today)
    ensures QueryTotal(w.tables, owned, cutoff, today) + |Lost(w, owned, today)| == NaiveTotal(w.accepted, owned)
  {
    hide Sum, AllSlots, Today, Unfolded, ExactSlot, ExactTotal, DayOf, Exact;
    DailySum(w, AllSlots(w.tables.daily, owned, today)) by { AllSlotsKept(w, owned, today); }
    TotalsSum(w, owned);
    KeptBefore(w, owned, today);
    CurrentIsSince(w, owned, cutoff, today);
    FoldedIsPast(w, owned, cutoff, today);
    AcceptedParts(w, owned, today);
  }

  lemma FoldedIsPast(w: World, owned: set<nat>, cutoff: int, today: int)
    requires Exact(w) && Readable(w, owned, cutoff, today)
    ensures w.folded <= w.credited <= w.accepted && forall c | c in Owned(w.folded, owned) :: DayOf(c.time) < today
  {
    hide Sum, AllSlots, Today, Unfolded, ExactSlot, DayOf;
    forall c | c in Owned(w.folded, owned) ensures DayOf(c.time) < today {
      assert ExactTotal(w, c.proxy) && c in FoldedOf(w, c.proxy);
    }
  }

  // The accepted checks of the owned routes: credited to a past day, folded, of today or later, and lost.
  lemma AcceptedParts(w: World, owned: set<nat>, today: int)
    requires w.folded <= w.credited <= w.accepted && forall c | c in Owned(w.folded, owned) :: DayOf(c.time) < today
    ensures |Owned(w.accepted, owned)| ==
            |Before(w, owned, today)| + |Owned(w.folded, owned)| + |Since(w, owned, today)| + |Lost(w, owned, today)|
  {
    hide DayOf;
    var kept, folded, current, lost := Before(w, owned, today), Owned(w.folded, owned), Since(w, owned, today), Lost(w, owned, today);
    assert Owned(w.accepted, owned) == kept + folded + current + lost;
    assert kept !! folded && (kept + folded) !! current && (kept + folded + current) !! lost;
  }

  lemma AllSlotsKept(w: World, owned: set<nat>, today: int)
    ensures AllSlots(w.tables.daily, owned, today) <= w.tables.daily.Keys
  {
  }

  ghost function Boundary(w: World, owned: set<nat>, cutoff: int): set<Check> {
    set c | c in w.accepted && c.proxy in owned && c.time >= cutoff && DayOf(c.time) < DayOf(cutoff) + 1
  }

  lemma PartialIsBoundary(w: World, owned: set<nat>, cutoff: int, today: int)
    requires Exact(w) && Readable(w, owned, cutoff, today)
    ensures Partial(w.tables.raw, owned, cutoff) == Boundary(w, owned, cutoff)
  {
    forall c: Check | c.time >= cutoff ensures DayOf(c.time) >= DayOf(cutoff) {
      if DayOf(cutoff) > DayOf(c.time) { LaterDay(cutoff, c.time); }
    }
  }

  ghost function Week(w: World, owned: set<nat>, cutoff: int): set<Check> {
    set c | c in Owned(w.accepted, owned) && c.time >= cutoff
  }

  lemma WeekSplits(w: World, owned: set<nat>, cutoff: int, today: int)
    requires Exact(w) && Readable(w, owned, cutoff, today)
    ensures var next := DayOf(cutoff) + 1;
            && Week(w, owned, cutoff) == OnDays(w, owned, next, today) + Boundary(w, owned, cutoff) + Since(w, owned, today) +
                                         LostSince(w, owned, next, today)
            && (OnDays(w, owned, next, today) + Boundary(w, owned, cutoff) + Since(w, owned, today)) !! LostSince(w, owned, next, today)
  {
    forall c: Check | DayOf(c.time) > DayOf(cutoff) ensures c.time > cutoff { LaterDay(c.time, cutoff); }
    hide DayOf;
  }

  // So does the week count, by those inside the window.
  lemma WeekShortfall(w: World, owned: set<nat>, cutoff: int, today: int)
    requires Exact(w) && Readable(w, owned, cutoff, today)
    ensures QueryWeek(w.tables, owned, cutoff, today) + |LostSince(w, owned, DayOf(cutoff) + 1, today)| ==
            NaiveWeek(w.accepted, owned, cutoff)
  {
    hide Sum, RetainedSlots, Today, Partial, Unfolded, ExactSlot, ExactTotal, DayOf, Exact, Readable;
    var next := DayOf(cutoff) + 1;
    DailySum(w, RetainedSlots(w.tables.daily, owned, next, today)) by { RetainedSlotsKept(w, owned, next, today); }
    assert 0 !in owned && next <= today by { ReadableMeans(w, owned, cutoff, today); }
    KeptOnDays(w, owned, next, today);
    CurrentIsSince(w, owned, cutoff, today);
    PartialIsBoundary(w, owned, cutoff, today);
    WeekSplits(w, owned, cutoff, today);
    var kept, boundary, current := OnDays(w, owned, next, today), Boundary(w, owned, cutoff), Since(w, owned, today);
    assert kept !! boundary && (kept + boundary) !! current;
  }

  lemma ReadableMeans(w: World, owned: set<nat>, cutoff: int, today: int)
    requires Readable(w, owned, cutoff, today)
    ensures 0 !in owned && DayOf(cutoff) + 1 <= today
  {
  }

  lemma RetainedSlotsKept(w: World, owned: set<nat>, from: int, today: int)
    ensures RetainedSlots(w.tables.daily, owned, from, today) <= w.tables.daily.Keys
  {
  }
}
