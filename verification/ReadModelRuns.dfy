// No invalidation is lost: writers, queue calls and the one projection worker, in any interleaving.
module ReadModelRuns {
  import opened Options
  import opened ReadModelBatch
  import opened ReadModelQueue
  import opened Ids

  // Versions of one owned pair, drawn from one clock: its last write, the last write that a queue call
  // followed, and the write its projection row was computed from (0: no row yet).
  datatype Versions = Versions(written: nat, queued: nat, projected: nat)

  // A statement in flight: the end of its prefix, and what it read for the pairs that were owned then.
  datatype Statement = Statement(end: nat, read: map<Pair, nat>)

  datatype Retained = Retained(pairs: seq<Pair>, next: nat)

  datatype World = World(
    clock: nat, rows: map<Pair, Versions>,
    memory: Memory,
    hand: set<nat>,                    // popped, owners not discovered yet
    found: Option<seq<Pair>>,          // discovered, not retained yet
    batch: Option<Retained>,
    statement: Option<Statement>,
    late: multiset<map<Pair, nat>>)    // reads of statements the worker gave up on, which may still commit

  datatype Event =
    | Owned(pair: Pair)                // a workspace gains a route
    | Disowned(pair: Pair)             // it loses it, and the projection row with it
    | Wrote(pair: Pair)                // a transaction that changes what the projection reads commits
    | QueuedIds(ids: set<nat>)
    | Popped(limit: int, popped: seq<nat>, after: Memory)
    | Discovered(pairs: seq<Pair>)
    | DiscoveryFailed
    | RetainedBatch
    | Began(prefixEnd: nat)
    | Acknowledged                     // the statement committed and the worker knows
    | Lost                             // the statement committed, but the worker saw an error
    | Failed                           // the statement had no effect
    | Abandoned                        // the worker saw an error, and the statement is still being executed
    | LateCommit(read: map<Pair, nat>) // such a statement commits after all
    | Released

  ghost function Routes(pairs: seq<Pair>): set<nat> {
    set p | p in pairs :: p.route
  }

  ghost predicate Legal(w: World, e: Event) {
    match e
    case Owned(pair) => pair !in w.rows && pair.route != 0
    case Disowned(pair) => pair in w.rows
    case Wrote(pair) => pair in w.rows
    case QueuedIds(_) => true
    case Popped(limit, ids, after) => w.batch.None? && w.hand == {} && w.found.None? && Pops(w.memory, limit, ids, after)
    case Discovered(pairs) => w.hand != {} && w.found.None? && forall p :: p in pairs <==> p in w.rows && p.route in w.hand
    case DiscoveryFailed => w.hand != {}
    case RetainedBatch => w.found.Some?
    case Began(end) => w.batch.Some? && w.statement.None? && w.batch.value.next <= end <= |w.batch.value.pairs|
    case Acknowledged => w.statement.Some? && w.batch.Some?
    case Lost => w.statement.Some? && w.batch.Some?
    case Failed => w.statement.Some?
    case Abandoned => w.statement.Some?
    case LateCommit(read) => read in w.late
    case Released => w.batch.Some? && w.statement.None? && w.batch.value.next == |w.batch.value.pairs|
  }

  // A statement writes the rows of the pairs it read and that are still owned.
  ghost function Applied(rows: map<Pair, Versions>, read: map<Pair, nat>): map<Pair, Versions> {
    map p | p in rows :: if p in read then rows[p].(projected := read[p]) else rows[p]
  }

  ghost function Suffix(batch: Retained): seq<Pair> {
    if batch.next <= |batch.pairs| then batch.pairs[batch.next..] else []
  }

  ghost function Prefix(batch: Retained, end: nat): seq<Pair> {
    if batch.next <= end <= |batch.pairs| then batch.pairs[batch.next..end] else []
  }

  ghost function Next(w: World, e: Event): World {
    match e
    case Owned(pair) => w.(clock := w.clock + 1, rows := w.rows[pair := Versions(w.clock + 1, 0, 0)])
    case Disowned(pair) => w.(rows := w.rows - {pair})
    case Wrote(pair) =>
      if pair in w.rows then w.(clock := w.clock + 1, rows := w.rows[pair := w.rows[pair].(written := w.clock + 1)]) else w
    case QueuedIds(ids) =>
      w.(memory := Queued(w.memory, ids),
         rows := map p | p in w.rows :: if p.route in ids then w.rows[p].(queued := w.rows[p].written) else w.rows[p])
    case Popped(limit, ids, after) => w.(memory := after, hand := Elements(ids))
    case Discovered(pairs) => w.(found := Some(pairs))
    case DiscoveryFailed => w.(memory := Requeued(w.memory, w.hand), hand := {}, found := None)
    case RetainedBatch => if w.found.Some? then w.(batch := Some(Retained(w.found.value, 0)), found := None, hand := {}) else w
    case Began(end) =>
      if w.batch.Some? then
        w.(statement := Some(Statement(end, map p | p in Prefix(w.batch.value, end) && p in w.rows :: w.rows[p].written)))
      else w
    case Acknowledged =>
      if w.statement.Some? && w.batch.Some? then
        w.(rows := Applied(w.rows, w.statement.value.read), batch := Some(w.batch.value.(next := w.statement.value.end)), statement := None)
      else w
    case Lost => if w.statement.Some? then w.(rows := Applied(w.rows, w.statement.value.read), statement := None) else w
    case Failed => w.(statement := None)
    case Abandoned => if w.statement.Some? then w.(statement := None, late := w.late + multiset{w.statement.value.read}) else w
    case LateCommit(read) => w.(rows := Applied(w.rows, read), late := w.late - multiset{read})
    case Released => w.(batch := None)
  }

  // ---- Nothing is lost ------------------------------------------------------------------------------------

  ghost predicate Waiting(w: World, route: nat) {
    route in w.memory.dirty || route in w.memory.round
  }

  ghost predicate Stale(w: World, pair: Pair) {
    pair in w.rows && w.rows[pair].projected < w.rows[pair].queued
  }

  // Where a stale pair's invalidation is: still queued, popped, or in the uncommitted suffix.
  ghost predicate Kept(w: World, pair: Pair) {
    || Waiting(w, pair.route) || pair.route in w.hand
    || (w.batch.Some? && pair in Suffix(w.batch.value))
  }

  ghost predicate NothingLost(w: World) {
    forall pair | Stale(w, pair) :: Kept(w, pair)
  }

  // A pair that discovery or the running statement did not cover was not queued since, or waits in the queue.
  ghost predicate FoundCovers(w: World) {
    w.found.Some? ==>
      forall pair | pair in w.rows && pair.route in w.hand && pair !in w.found.value && !Waiting(w, pair.route) :: w.rows[pair].queued == 0
  }

  ghost predicate StatementCovers(w: World) {
    w.statement.Some? && w.batch.Some? ==>
      forall pair | pair in w.rows && pair in Prefix(w.batch.value, w.statement.value.end) && !Waiting(w, pair.route) ::
        if pair in w.statement.value.read then w.statement.value.read[pair] >= w.rows[pair].queued
        else w.rows[pair].queued == 0
  }

  ghost predicate Shaped(w: World) {
    && (forall pair | pair in w.rows :: w.rows[pair].queued <= w.rows[pair].written <= w.clock && pair.route != 0)
    && (w.statement.Some? ==> w.batch.Some? && w.batch.value.next <= w.statement.value.end <= |w.batch.value.pairs|)
    && (w.batch.Some? ==> w.hand == {} && w.found.None? && w.batch.value.next <= |w.batch.value.pairs|)
    && (w.found.Some? ==> w.hand != {})
    && (w.statement.Some? && w.batch.Some? ==>
          forall pair | pair in w.statement.value.read :: pair in Prefix(w.batch.value, w.statement.value.end))
  }

  ghost predicate Safe(w: World) {
    Shaped(w) && NothingLost(w) && FoundCovers(w) && StatementCovers(w)
  }

  // Each owned pair that was queued after a late statement read it is still accounted for.
  ghost predicate InTime(w: World, read: map<Pair, nat>) {
    forall pair | pair in read && pair in w.rows && read[pair] < w.rows[pair].queued :: Kept(w, pair)
  }

  ghost predicate Timely(w: World, e: Event) {
    e.LateCommit? ==> InTime(w, e.read)
  }

  lemma AcknowledgedLosesNothing(w: World, pair: Pair)
    requires Safe(w) && w.statement.Some? && Stale(Next(w, Acknowledged), pair)
    ensures Kept(Next(w, Acknowledged), pair)
  {
    var batch, end := w.batch.value, w.statement.value.end;
    assert pair in Prefix(batch, end) ==> Waiting(w, pair.route);
    assert pair !in w.statement.value.read || Waiting(w, pair.route);
    assert Waiting(w, pair.route) || Stale(w, pair);
  }

  lemma StepLosesNothing(w: World, e: Event, pair: Pair)
    requires Safe(w) && Legal(w, e) && Timely(w, e) && Stale(Next(w, e), pair)
    ensures Kept(Next(w, e), pair)
  {
    match e
    case Acknowledged => AcknowledgedLosesNothing(w, pair);
    case RetainedBatch =>
      assert Suffix(Retained(w.found.value, 0)) == w.found.value;
      assert Stale(w, pair) && Kept(w, pair);
    case Popped(limit, ids, after) =>
      var closed := ids + after.round;
      assert Stale(w, pair) && Waiting(w, pair.route);
      assert pair.route in closed || pair.route in after.dirty by { assert pair.route in Elements(closed) ==> pair.route in closed; }
      assert pair.route in closed ==> pair.route in ids || pair.route in after.round;
    case Lost =>
      assert pair in w.statement.value.read ==> pair in Prefix(w.batch.value, w.statement.value.end);
      assert Stale(w, pair) || Waiting(w, pair.route);
    case Released =>
      assert Suffix(w.batch.value) == [] && Stale(w, pair);
    case QueuedIds(ids) =>
      assert pair.route in ids || Stale(w, pair);
    case DiscoveryFailed =>
      assert Stale(w, pair) && pair.route != 0;
    case LateCommit(read) =>
      assert pair in read || Stale(w, pair);
    case _ =>
      assert Stale(w, pair);
  }

  lemma StepKeepsShape(w: World, e: Event)
    requires Shaped(w) && Legal(w, e)
    ensures Shaped(Next(w, e))
  {
    hide Suffix, Routes, Pops, Queued, Requeued, Elements;
  }

  lemma StepKeepsFound(w: World, e: Event)
    requires Safe(w) && Legal(w, e)
    ensures FoundCovers(Next(w, e))
  {
    hide Prefix, Suffix;
    var next := Next(w, e);
    if next.found.Some? && !e.Discovered? {
      assert next.found == w.found && next.hand == w.hand;
      forall pair | pair in next.rows && pair.route in next.hand && pair !in next.found.value && !Waiting(next, pair.route)
        ensures next.rows[pair].queued == 0
      {
        assert !Waiting(w, pair.route);
      }
    }
  }

  lemma StepKeepsStatement(w: World, e: Event)
    requires Safe(w) && Legal(w, e)
    ensures StatementCovers(Next(w, e))
  {
    hide Suffix;
    var next := Next(w, e);
    if next.statement.Some? && next.batch.Some? && !e.Began? {
      assert next.statement == w.statement && next.batch == w.batch;
      hide Prefix;
      forall pair | pair in next.rows && pair in Prefix(next.batch.value, next.statement.value.end) && !Waiting(next, pair.route)
        ensures if pair in next.statement.value.read then next.statement.value.read[pair] >= next.rows[pair].queued
                else next.rows[pair].queued == 0
      {
        assert !Waiting(w, pair.route);
      }
    }
  }

  lemma StepKeepsSafe(w: World, e: Event)
    requires Safe(w) && Legal(w, e) && Timely(w, e)
    ensures Safe(Next(w, e))
  {
    hide Next, Legal, Timely, Shaped, FoundCovers, StatementCovers, Stale, Kept;
    StepKeepsShape(w, e);
    StepKeepsFound(w, e);
    StepKeepsStatement(w, e);
    forall pair | Stale(Next(w, e), pair) { StepLosesNothing(w, e, pair); }
  }

  ghost predicate LegalRun(w: World, events: seq<Event>)
    decreases |events|
  {
    events != [] ==> Legal(w, events[0]) && LegalRun(Next(w, events[0]), events[1..])
  }

  ghost function After(w: World, events: seq<Event>): World
    decreases |events|
  {
    if events == [] then w else After(Next(w, events[0]), events[1..])
  }

  // Every late commit of the run comes in time.
  ghost predicate TimelyRun(w: World, events: seq<Event>)
    decreases |events|
  {
    events != [] ==> Timely(w, events[0]) && TimelyRun(Next(w, events[0]), events[1..])
  }

  lemma {:induction false} RunKeepsSafe(w: World, events: seq<Event>)
    requires Safe(w) && LegalRun(w, events) && TimelyRun(w, events)
    ensures Safe(After(w, events))
    decreases |events|
  {
    if events != [] {
      StepKeepsSafe(w, events[0]);
      RunKeepsSafe(Next(w, events[0]), events[1..]);
    }
  }

  const START := World(0, map[], Memory({}, []), {}, None, None, None, multiset{})

  // In every run, an owned pair whose projection is older than its last queued write has its route in the
  // dirty set, in the round, in the worker's hand, or in the uncommitted suffix of the retained batch.
  lemma NoInvalidationIsLost(events: seq<Event>, pair: Pair)
    requires LegalRun(START, events) && TimelyRun(START, events) && Stale(After(START, events), pair)
    ensures Kept(After(START, events), pair)
  {
    RunKeepsSafe(START, events);
  }

  // No world of the run has lost an invalidation.
  ghost predicate NeverLoses(w: World, events: seq<Event>)
    decreases |events|
  {
    NothingLost(w) && (events != [] ==> NeverLoses(Next(w, events[0]), events[1..]))
  }

  lemma LateCommitDecides(w: World, e: Event)
    requires Safe(w) && Legal(w, e)
    ensures NothingLost(Next(w, e)) <==> Timely(w, e)
  {
    if Timely(w, e) {
      StepKeepsSafe(w, e);
    } else {
      var next := Next(w, e);
      var pair :| pair in e.read && pair in w.rows && e.read[pair] < w.rows[pair].queued && !Kept(w, pair);
      assert Stale(next, pair) && !Kept(next, pair);
    }
  }

  lemma {:induction false} SafeRunLosesExactly(w: World, events: seq<Event>)
    requires Safe(w) && LegalRun(w, events)
    ensures NeverLoses(w, events) <==> TimelyRun(w, events)
    decreases |events|
  {
    if events != [] {
      LateCommitDecides(w, events[0]);
      if Timely(w, events[0]) {
        StepKeepsSafe(w, events[0]);
        SafeRunLosesExactly(Next(w, events[0]), events[1..]);
      } else {
        assert !NothingLost(Next(w, events[0]));
      }
    }
  }

  // A run never loses an invalidation exactly if each of its late commits comes in time.
  lemma LosesOnlyByLateCommits(events: seq<Event>)
    requires LegalRun(START, events)
    ensures NeverLoses(START, events) <==> TimelyRun(START, events)
  {
    SafeRunLosesExactly(START, events);
  }

  // The pairs that a statement read are in the uncommitted suffix.
  ghost predicate Uncommitted(w: World, read: map<Pair, nat>) {
    forall pair | pair in read :: w.batch.Some? && pair in Suffix(w.batch.value)
  }

  lemma {:induction false} RunKeepsShape(w: World, events: seq<Event>)
    requires Shaped(w) && LegalRun(w, events)
    ensures Shaped(After(w, events))
    decreases |events|
  {
    if events != [] {
      StepKeepsShape(w, events[0]);
      RunKeepsShape(Next(w, events[0]), events[1..]);
    }
  }

  // The cursor passes pairs only when a commit is acknowledged, and a batch with pairs left is not released.
  lemma {:induction false} StaysUncommitted(w: World, events: seq<Event>, read: map<Pair, nat>)
    requires Shaped(w) && LegalRun(w, events) && Acknowledged !in events && Uncommitted(w, read)
    ensures Uncommitted(After(w, events), read)
    decreases |events|
  {
    if events != [] {
      assert events[0] in events;
      StepKeepsShape(w, events[0]);
      StaysUncommitted(Next(w, events[0]), events[1..], read);
    }
  }

  // In every run, a statement that the worker gave up on comes in time whenever it commits before the worker has a
  // commit acknowledged again, whatever else happens in between.
  lemma InTimeUntilRetried(before: seq<Event>, after: seq<Event>)
    requires LegalRun(START, before) && After(START, before).statement.Some?
    requires LegalRun(Next(After(START, before), Abandoned), after) && Acknowledged !in after
    ensures InTime(After(Next(After(START, before), Abandoned), after), After(START, before).statement.value.read)
  {
    var w := After(START, before);
    RunKeepsShape(START, before);
    StepKeepsShape(w, Abandoned);
    StaysUncommitted(Next(w, Abandoned), after, w.statement.value.read);
  }

  // What readModelProxyWorkPending reports.
  ghost predicate WorkPending(w: World) {
    w.memory.dirty != {} || w.memory.round != [] || w.batch.Some?
  }

  ghost predicate UpToDate(w: World) {
    forall pair :: !Stale(w, pair)
  }

  // Without pending work the projection is up to date, unless a pop is still discovering its owners.
  lemma IdleIsUpToDate(events: seq<Event>)
    requires LegalRun(START, events) && TimelyRun(START, events)
    requires !WorkPending(After(START, events)) && After(START, events).hand == {}
    ensures UpToDate(After(START, events))
  {
    var w := After(START, events);
    forall pair ensures !Stale(w, pair) {
      if Stale(w, pair) { NoInvalidationIsLost(events, pair); }
    }
  }

  // Ids in the worker's hand are in none of the three places, so the report alone does not promise it:
  // whatever the hand holds, a run leads to such a world with a stale projection.
  lemma HandHidesWork(hand: set<nat>, listed: seq<nat>) returns (events: seq<Event>)
    requires hand != {} && 0 !in hand && Ascending(listed) && Elements(listed) == hand
    ensures LegalRun(START, events) && TimelyRun(START, events) && After(START, events).hand == hand
    ensures !WorkPending(After(START, events)) && !UpToDate(After(START, events))
  {
    var pair := Pair(1, listed[0]);
    assert listed[0] in hand;
    var popped := Popped(|listed|, listed, Memory({}, []));
    events := [Owned(pair), QueuedIds(hand), popped];
    var a := Next(START, Owned(pair));
    var b := Next(a, QueuedIds(hand));
    assert b.memory.dirty == hand && listed + [] == listed;
    assert Legal(b, popped);
    assert Stale(Next(b, popped), pair);
    Run3(START, Owned(pair), QueuedIds(hand), popped);
  }

  lemma Run3(w: World, a: Event, b: Event, c: Event)
    ensures After(w, [a, b, c]) == Next(Next(Next(w, a), b), c)
    ensures LegalRun(w, [a, b, c]) <==> Legal(w, a) && Legal(Next(w, a), b) && Legal(Next(Next(w, a), b), c)
    ensures TimelyRun(w, [a, b, c]) <==> Timely(w, a) && Timely(Next(w, a), b) && Timely(Next(Next(w, a), b), c)
  {
    assert [a, b, c][1..] == [b, c] && [b, c][1..] == [c] && [c][1..] == [];
    var x := Next(w, a);
    var y := Next(x, b);
    var z := Next(y, c);
    assert After(z, []) == z && After(y, [c]) == z && After(x, [b, c]) == z;
    assert LegalRun(z, []) && (LegalRun(y, [c]) <==> Legal(y, c)) && (LegalRun(x, [b, c]) <==> Legal(x, b) && Legal(y, c));
    assert TimelyRun(z, []) && (TimelyRun(y, [c]) <==> Timely(y, c)) && (TimelyRun(x, [b, c]) <==> Timely(x, b) && Timely(y, c));
  }

  // Reading the report as "up to date" is right for exactly the worlds whose hand is empty.
  lemma IdleExactlyWithEmptyHand(hand: set<nat>)
    requires 0 !in hand
    ensures hand == {} <==>
            forall events | LegalRun(START, events) && TimelyRun(START, events) && !WorkPending(After(START, events)) &&
                            After(START, events).hand == hand :: UpToDate(After(START, events))
  {
    hide LegalRun, TimelyRun, After, WorkPending, UpToDate;
    if hand == {} {
      forall events | LegalRun(START, events) && TimelyRun(START, events) && !WorkPending(After(START, events)) &&
                      After(START, events).hand == hand
        ensures UpToDate(After(START, events))
      {
        IdleIsUpToDate(events);
      }
    } else {
      var listed := SortedListing(hand);
      var events := HandHidesWork(hand, listed);
    }
  }
}
