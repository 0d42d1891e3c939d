// Daily check counters, lifetime totals and raw history, and the dashboard counts computed from them.
module DailyChecks {
  import opened Options
  import opened Sums

  const SECOND := 1_000_000_000
  const DAY := 86_400 * SECOND

  datatype Check = Check(id: nat, proxy: nat, time: int)

  datatype Slot = Slot(proxy: nat, day: int)

  // compactedBefore is the first day that no compaction of the route has reached.
  datatype Total = Total(count: nat, compactedBefore: int)

  datatype Tables = Tables(raw: set<Check>, daily: map<Slot, nat>, totals: map<nat, Total>, backfilled: set<nat>)

  // The UTC day of a time; Dafny's division rounds down for a positive divisor.
  function DayOf(time: int): int { time / DAY }

  function SlotOf(c: Check): Slot { Slot(c.proxy, DayOf(c.time)) }

  function Max(a: int, b: int): int { if a >= b then a else b }

  function Count(daily: map<Slot, nat>, s: Slot): nat {
    if s in daily then daily[s] else 0
  }

  function In(checks: set<Check>, s: Slot): set<Check> {
    set c | c in checks && SlotOf(c) == s
  }

  function Slots(checks: set<Check>): set<Slot> {
    set c | c in checks :: SlotOf(c)
  }

  // ---- The transactions ---------------------------------------------------------------------------------------

  function Countable(checks: set<Check>): set<Check> {
    set c | c in checks && c.proxy != 0
  }

  function Incremented(daily: map<Slot, nat>, checks: set<Check>): map<Slot, nat> {
    map s | s in daily.Keys + Slots(checks) :: Count(daily, s) + |In(checks, s)|
  }

  // The raw rows a backfill counts: of its routes, before today, and not before what is already compacted.
  function Eligible(t: Tables, proxies: set<nat>, today: int): set<Check> {
    set c | c in t.raw && c.proxy in proxies && DayOf(c.time) < today &&
            (c.proxy in t.totals ==> DayOf(c.time) >= t.totals[c.proxy].compactedBefore)
  }

  function Backfilled(t: Tables, proxies: set<nat>, today: int): Tables {
    var eligible := Eligible(t, proxies, today);
    t.(daily := map s | s in t.daily.Keys + Slots(eligible) :: Max(Count(t.daily, s), |In(eligible, s)|),
       backfilled := t.backfilled + proxies)
  }

  function Of(slots: set<Slot>, proxy: nat): set<Slot> {
    set s | s in slots && s.proxy == proxy
  }

  function Proxies(slots: set<Slot>): set<nat> {
    set s | s in slots :: s.proxy
  }

  ghost function After(slots: set<Slot>, least: int): (day: int)
    ensures day >= least && forall s | s in slots :: s.day < day
    ensures day == least || exists s :: s in slots && day == s.day + 1
    decreases |slots|
  {
    if slots == {} then least
    else
      var s :| s in slots;
      Max(After(slots - {s}, least), s.day + 1)
  }

  ghost function SomeDay(slots: set<Slot>): int {
    if slots == {} then 0
    else
      var s :| s in slots;
      s.day + 1
  }

  ghost function TotalAfter(t: Tables, slots: set<Slot>, proxy: nat): Total
    requires slots <= t.daily.Keys
  {
    var old_ := if proxy in t.totals then t.totals[proxy] else Total(0, SomeDay(Of(slots, proxy)));
    Total(old_.count + Sum(t.daily, Of(slots, proxy)), After(Of(slots, proxy), old_.compactedBefore))
  }

  // Old days become part of the lifetime total.
  ghost function Compacted(t: Tables, slots: set<Slot>): Tables
    requires slots <= t.daily.Keys
  {
    t.(daily := t.daily - slots,
       totals := map p | p in t.totals.Keys + Proxies(slots) :: TotalAfter(t, slots, p))
  }

  // ---- The counts -------------------------------------------------------------------------------------------

  function RetainedSlots(daily: map<Slot, nat>, owned: set<nat>, from: int, to: int): set<Slot> {
    set s | s in daily && s.proxy in owned && from <= s.day < to
  }

  function AllSlots(daily: map<Slot, nat>, owned: set<nat>, to: int): set<Slot> {
    set s | s in daily && s.proxy in owned && s.day < to
  }

  function Counts(totals: map<nat, Total>): map<nat, nat> {
    map p | p in totals :: totals[p].count
  }

  function Owned(checks: set<Check>, owned: set<nat>): set<Check> {
    set c | c in checks && c.proxy in owned
  }

  function Today(raw: set<Check>, owned: set<nat>, cutoff: int, today: int): set<Check> {
    set c | c in Owned(raw, owned) && c.time >= cutoff && DayOf(c.time) >= today
  }

  function Partial(raw: set<Check>, owned: set<nat>, cutoff: int): set<Check> {
    set c | c in Owned(raw, owned) && c.time >= cutoff && DayOf(c.time) < DayOf(cutoff) + 1
  }

  ghost function QueryTotal(t: Tables, owned: set<nat>, cutoff: int, today: int): nat {
    Sum(t.daily, AllSlots(t.daily, owned, today)) + Sum(Counts(t.totals), owned * t.totals.Keys) + |Today(t.raw, owned, cutoff, today)|
  }

  ghost function QueryWeek(t: Tables, owned: set<nat>, cutoff: int, today: int): nat {
    Sum(t.daily, RetainedSlots(t.daily, owned, DayOf(cutoff) + 1, today)) + |Partial(t.raw, owned, cutoff)| + |Today(t.raw, owned, cutoff, today)|
  }

  // What the counts should be: all accepted checks of the owned routes, and those since the cutoff.
  ghost function NaiveTotal(accepted: set<Check>, owned: set<nat>): nat { |Owned(accepted, owned)| }

  ghost function NaiveWeek(accepted: set<Check>, owned: set<nat>, cutoff: int): nat {
    |set c | c in Owned(accepted, owned) && c.time >= cutoff|
  }
}
