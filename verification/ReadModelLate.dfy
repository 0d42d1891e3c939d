// A statement that the worker gave up on and that commits only after its retry can lose an invalidation.
module ReadModelLate {
  import opened Options
  import opened ReadModelBatch
  import opened ReadModelQueue
  import opened ReadModelRuns

  lemma {:induction false} RunAppend(w: World, a: seq<Event>, b: seq<Event>)
    requires LegalRun(w, a) && LegalRun(After(w, a), b)
    ensures LegalRun(w, a + b) && After(w, a + b) == After(After(w, a), b)
    decreases |a|
  {
    if a == [] {
      assert a + b == b;
    } else {
      assert (a + b)[1..] == a[1..] + b;
      RunAppend(Next(w, a[0]), a[1..], b);
    }
  }

  // One owned pair, an idle worker, and the pair's route queued or not.
  ghost function OnePair(pair: Pair, clock: nat, v: Versions, queued: bool, late: multiset<map<Pair, nat>>): World {
    World(clock, map[pair := v], Memory(if queued then {pair.route} else {}, []), {}, None, None, None, late)
  }

  ghost function Retaining(w: World, pair: Pair, statement: Option<Statement>): World {
    w.(batch := Some(Retained([pair], 0)), statement := statement)
  }

  // The worker takes the queued pair and begins its statement.
  ghost function Taking(pair: Pair): seq<Event> {
    [Popped(1, [pair.route], Memory({}, [])), Discovered([pair]), RetainedBatch] + [Began(1)]
  }

  lemma Took(pair: Pair, clock: nat, v: Versions, late: multiset<map<Pair, nat>>)
    ensures var w := OnePair(pair, clock, v, true, late);
            && LegalRun(w, Taking(pair))
            && After(w, Taking(pair)) == Retaining(OnePair(pair, clock, v, false, late), pair, Some(Statement(1, map[pair := v.written])))
  {
    var w := OnePair(pair, clock, v, true, late);
    var popped := Popped(1, [pair.route], Memory({}, []));
    assert [pair.route] + [] == [pair.route] && Legal(w, popped);
    Run3(w, popped, Discovered([pair]), RetainedBatch);
    var kept := Next(Next(Next(w, popped), Discovered([pair])), RetainedBatch);
    assert kept == Retaining(OnePair(pair, clock, v, false, late), pair, None);
    Began1(kept, pair);
    RunAppend(w, [popped, Discovered([pair]), RetainedBatch], [Began(1)]);
  }

  lemma Began1(w: World, pair: Pair)
    requires w.batch == Some(Retained([pair], 0)) && w.statement.None? && pair in w.rows
    ensures LegalRun(w, [Began(1)])
    ensures After(w, [Began(1)]) == w.(statement := Some(Statement(1, map[pair := w.rows[pair].written])))
  {
    assert Prefix(Retained([pair], 0), 1) == [pair];
    assert (map p | p in Prefix(Retained([pair], 0), 1) && p in w.rows :: w.rows[p].written) == map[pair := w.rows[pair].written];
    assert [Began(1)][1..] == [] && LegalRun(Next(w, Began(1)), []);
  }

  // The statement commits, and the batch is released.
  lemma Finished(pair: Pair, clock: nat, v: Versions, queued: bool, late: multiset<map<Pair, nat>>, n: nat)
    ensures var w := Retaining(OnePair(pair, clock, v, queued, late), pair, Some(Statement(1, map[pair := n])));
            && LegalRun(w, [Acknowledged, Released])
            && After(w, [Acknowledged, Released]) == OnePair(pair, clock, v.(projected := n), queued, late)
  {
    var w := Retaining(OnePair(pair, clock, v, queued, late), pair, Some(Statement(1, map[pair := n])));
    var a := Next(w, Acknowledged);
    assert Applied(w.rows, map[pair := n]) == map[pair := v.(projected := n)];
    var b := Next(a, Released);
    assert [Acknowledged, Released][1..] == [Released] && [Released][1..] == [];
    assert After(b, []) == b && After(a, [Released]) == b && LegalRun(b, []) && LegalRun(a, [Released]);
  }

  ghost function Overtaken(pair: Pair): seq<Event> {
    [Abandoned, Wrote(pair), QueuedIds({pair.route})] + [Began(1)] + [Acknowledged, Released]
  }

  // The statement is given up, a new write is queued, and the retry commits.
  lemma Overtook(pair: Pair)
    requires pair.route != 0
    ensures var w := Retaining(OnePair(pair, 1, Versions(1, 1, 0), false, multiset{}), pair, Some(Statement(1, map[pair := 1])));
            && LegalRun(w, Overtaken(pair))
            && After(w, Overtaken(pair)) == OnePair(pair, 2, Versions(2, 2, 2), true, multiset{map[pair := 1]})
  {
    hide LegalRun, After;
    var late := multiset{map[pair := 1]};
    var w := Retaining(OnePair(pair, 1, Versions(1, 1, 0), false, multiset{}), pair, Some(Statement(1, map[pair := 1])));
    var gaveUp := [Abandoned, Wrote(pair), QueuedIds({pair.route})];
    GaveUp(pair);
    Began1(Retaining(OnePair(pair, 2, Versions(2, 2, 0), true, late), pair, None), pair);
    RunAppend(w, gaveUp, [Began(1)]);
    Finished(pair, 2, Versions(2, 2, 0), true, late, 2);
    RunAppend(w, gaveUp + [Began(1)], [Acknowledged, Released]);
  }

  lemma GaveUp(pair: Pair)
    requires pair.route != 0
    ensures var w := Retaining(OnePair(pair, 1, Versions(1, 1, 0), false, multiset{}), pair, Some(Statement(1, map[pair := 1])));
            var events := [Abandoned, Wrote(pair), QueuedIds({pair.route})];
            && LegalRun(w, events)
            && After(w, events) == Retaining(OnePair(pair, 2, Versions(2, 2, 0), true, multiset{map[pair := 1]}), pair, None)
  {
    hide LegalRun, After, Next, Legal, Retaining, OnePair;
    var w := Retaining(OnePair(pair, 1, Versions(1, 1, 0), false, multiset{}), pair, Some(Statement(1, map[pair := 1])));
    var queued := QueuedIds({pair.route});
    Run3(w, Abandoned, Wrote(pair), queued);
    Abandons(pair);
    Rewrites(pair);
  }

  lemma Abandons(pair: Pair)
    ensures var w := Retaining(OnePair(pair, 1, Versions(1, 1, 0), false, multiset{}), pair, Some(Statement(1, map[pair := 1])));
            Legal(w, Abandoned) &&
            Next(w, Abandoned) == Retaining(OnePair(pair, 1, Versions(1, 1, 0), false, multiset{map[pair := 1]}), pair, None)
  {
  }

  lemma Rewrites(pair: Pair)
    requires pair.route != 0
    ensures var late := multiset{map[pair := 1]};
            var w := Retaining(OnePair(pair, 1, Versions(1, 1, 0), false, late), pair, None);
            var queued := QueuedIds({pair.route});
            && Legal(w, Wrote(pair)) && Legal(Next(w, Wrote(pair)), queued)
            && Next(Next(w, Wrote(pair)), queued) == Retaining(OnePair(pair, 2, Versions(2, 2, 0), true, late), pair, None)
  {
    var w := Retaining(OnePair(pair, 1, Versions(1, 1, 0), false, multiset{map[pair := 1]}), pair, None);
    var b := Next(Next(w, Wrote(pair)), QueuedIds({pair.route}));
    assert b.rows == map[pair := Versions(2, 2, 0)] && b.memory.dirty == {pair.route};
  }

  lemma FirstQueued(pair: Pair)
    requires pair.route != 0
    ensures var events := [Owned(pair), QueuedIds({pair.route})];
            LegalRun(START, events) && After(START, events) == OnePair(pair, 1, Versions(1, 1, 0), true, multiset{})
  {
    hide LegalRun, After;
    var queued := QueuedIds({pair.route});
    var first := Next(Next(START, Owned(pair)), queued);
    assert first.rows == map[pair := Versions(1, 1, 0)] && first.memory.dirty == {pair.route};
    Run2(START, Owned(pair), queued);
  }

  lemma LastCommit(pair: Pair)
    ensures var w := OnePair(pair, 2, Versions(2, 2, 2), false, multiset{map[pair := 1]});
            var events := [LateCommit(map[pair := 1])];
            && LegalRun(w, events) && Stale(After(w, events), pair)
            && !WorkPending(After(w, events)) && After(w, events).hand == {}
  {
    hide LegalRun, After;
    Run1(OnePair(pair, 2, Versions(2, 2, 2), false, multiset{map[pair := 1]}), LateCommit(map[pair := 1]));
  }

  // For every pair there is a run without pending work in which a statement that commits after its retry leaves the
  // projection older than the last queued write.
  lemma LateCommitLoses(pair: Pair) returns (events: seq<Event>)
    requires pair.route != 0
    ensures LegalRun(START, events) && Stale(After(START, events), pair)
    ensures !WorkPending(After(START, events)) && After(START, events).hand == {}
  {
    hide LegalRun, After, OnePair, Retaining, Stale, WorkPending;
    events := [Owned(pair), QueuedIds({pair.route})];
    FirstQueued(pair);
    Took(pair, 1, Versions(1, 1, 0), multiset{});
    RunAppend(START, events, Taking(pair));
    events := events + Taking(pair);
    Overtook(pair);
    RunAppend(START, events, Overtaken(pair));
    events := events + Overtaken(pair);
    Took(pair, 2, Versions(2, 2, 2), multiset{map[pair := 1]});
    RunAppend(START, events, Taking(pair));
    events := events + Taking(pair);
    Finished(pair, 2, Versions(2, 2, 2), false, multiset{map[pair := 1]}, 2);
    RunAppend(START, events, [Acknowledged, Released]);
    events := events + [Acknowledged, Released];
    LastCommit(pair);
    RunAppend(START, events, [LateCommit(map[pair := 1])]);
    events := events + [LateCommit(map[pair := 1])];
  }

  lemma Run1(w: World, a: Event)
    ensures After(w, [a]) == Next(w, a) && (LegalRun(w, [a]) <==> Legal(w, a))
  {
    assert [a][1..] == [] && After(Next(w, a), []) == Next(w, a) && LegalRun(Next(w, a), []);
  }

  lemma Run2(w: World, a: Event, b: Event)
    ensures After(w, [a, b]) == Next(Next(w, a), b)
    ensures LegalRun(w, [a, b]) <==> Legal(w, a) && Legal(Next(w, a), b)
  {
    assert [a, b][1..] == [b];
    Run1(Next(w, a), b);
  }
}
