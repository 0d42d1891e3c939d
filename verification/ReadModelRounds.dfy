// What closing rounds is for: no id overtakes a waiting one for long, and none waits in two places.
module ReadModelRounds {
  import opened Options
  import opened ReadModelBatch
  import opened ReadModelQueue
  import opened ReadModelRuns
  import opened Ids

  // ---- Fairness -----------------------------------------------------------------------------------------------

  datatype Call = Queue(ids: set<nat>) | Requeue(ids: set<nat>) | Pop(limit: int, popped: seq<nat>, after: Memory)

  ghost function AfterCall(m: Memory, call: Call): Memory {
    match call
    case Queue(ids) => Queued(m, ids)
    case Requeue(ids) => Requeued(m, ids)
    case Pop(_, _, after) => after
  }

  ghost predicate LegalCalls(m: Memory, calls: seq<Call>)
    decreases |calls|
  {
    calls != [] ==>
      && (calls[0].Pop? ==> Pops(m, calls[0].limit, calls[0].popped, calls[0].after))
      && LegalCalls(AfterCall(m, calls[0]), calls[1..])
  }

  ghost function TimesPopped(calls: seq<Call>, id: nat): nat {
    if calls == [] then 0
    else (if calls[0].Pop? && id in calls[0].popped then 1 else 0) + TimesPopped(calls[1..], id)
  }

  // How often one id may be popped before another one that waits.
  ghost function MayOvertake(m: Memory, other: nat, waiting: nat): nat {
    (if waiting in m.round then 0 else 1) + (if other in m.round then 1 else 0)
  }

  lemma PopSpends(m: Memory, limit: int, popped: seq<nat>, after: Memory, other: nat, waiting: nat)
    requires Pops(m, limit, popped, after) && (waiting in m.dirty || waiting in m.round) && waiting !in popped
    ensures waiting in after.dirty || waiting in after.round
    ensures (if other in popped then 1 else 0) + MayOvertake(after, other, waiting) <= MayOvertake(m, other, waiting)
  {
    var round := popped + after.round;
    assert forall id :: id in round <==> id in popped || id in after.round;
    if other in popped {
      var k :| 0 <= k < |popped| && popped[k] == other;
      assert round[k] == other;
      forall j | 0 <= j < |after.round| ensures after.round[j] != other { assert round[|popped| + j] == after.round[j]; }
    }
    if m.round == [] { assert waiting in Elements(round); }
  }

  lemma {:induction false} OvertakesAtMost(m: Memory, calls: seq<Call>, other: nat, waiting: nat)
    requires LegalCalls(m, calls) && (waiting in m.dirty || waiting in m.round) && TimesPopped(calls, waiting) == 0
    ensures TimesPopped(calls, other) <= MayOvertake(m, other, waiting)
    decreases |calls|
  {
    if calls != [] {
      if calls[0].Pop? { PopSpends(m, calls[0].limit, calls[0].popped, calls[0].after, other, waiting); }
      OvertakesAtMost(AfterCall(m, calls[0]), calls[1..], other, waiting);
    }
  }

  // Over any sequence of queue calls, failures and pops: while an id waits, no other one is popped more than twice,
  // however often it is queued again; and no other one more than once, if the id is in the closed round.
  lemma NobodyOvertakesTwice(m: Memory, calls: seq<Call>, other: nat, waiting: nat)
    requires LegalCalls(m, calls) && (waiting in m.dirty || waiting in m.round) && TimesPopped(calls, waiting) == 0
    ensures TimesPopped(calls, other) <= 2 && (waiting in m.round ==> TimesPopped(calls, other) <= 1)
  {
    OvertakesAtMost(m, calls, other, waiting);
  }

  // ---- Coalescing ---------------------------------------------------------------------------------------------

  // No id of the closed round is dirty too, or in the worker's hand.
  ghost predicate OnePlace(w: World) {
    forall id | id in w.memory.round :: id !in w.memory.dirty && id !in w.hand
  }

  ghost predicate Somewhere(w: World, id: nat) {
    id in w.memory.dirty || id in w.memory.round || id in w.hand
  }

  ghost predicate Asked(e: Event, id: nat) {
    e.QueuedIds? && id in e.ids && id != 0
  }

  lemma PopKeepsPlaces(m: Memory, limit: int, ids: seq<nat>, after: Memory)
    requires Pops(m, limit, ids, after) && forall id | id in m.round :: id !in m.dirty
    ensures forall id | id in after.round :: id !in after.dirty && id !in ids
    ensures forall id :: id in after.dirty || id in after.round || id in ids <==> id in m.dirty || id in m.round
  {
    var round := ids + after.round;
    assert forall id :: id in round <==> id in ids || id in after.round;
    assert forall id :: id in Elements(round) <==> id in round;
    forall i, j | 0 <= i < |ids| && 0 <= j < |after.round| ensures ids[i] != after.round[j] {
      assert round[i] == ids[i] && round[|ids| + j] == after.round[j];
    }
  }

  lemma StepKeepsPlaces(w: World, e: Event)
    requires Shaped(w) && Legal(w, e) && OnePlace(w)
    ensures OnePlace(Next(w, e))
    ensures forall id | Somewhere(Next(w, e), id) :: Somewhere(w, id) || Asked(e, id)
  {
    hide Pops;
    if e.Popped? { PopKeepsPlaces(w.memory, e.limit, e.popped, e.after); }
  }

  ghost predicate AskedIn(events: seq<Event>, id: nat) {
    exists k :: 0 <= k < |events| && Asked(events[k], id)
  }

  lemma {:induction false} RunKeepsPlaces(w: World, events: seq<Event>)
    requires Shaped(w) && LegalRun(w, events) && OnePlace(w)
    ensures OnePlace(After(w, events))
    ensures forall id | Somewhere(After(w, events), id) :: Somewhere(w, id) || AskedIn(events, id)
    decreases |events|
  {
    if events != [] {
      hide Shaped, OnePlace, Somewhere, Asked;
      StepKeepsPlaces(w, events[0]);
      StepKeepsShape(w, events[0]);
      RunKeepsPlaces(Next(w, events[0]), events[1..]);
      forall id | AskedIn(events[1..], id) ensures AskedIn(events, id) {
        var k :| 0 <= k < |events[1..]| && Asked(events[1..][k], id);
        assert Asked(events[k + 1], id);
      }
    }
  }

  // In every run, an id waits only if it was asked for, and never in the closed round and elsewhere at once: asking
  // again for an id that the round still holds adds nothing.
  lemma WaitsInOnePlace(events: seq<Event>, id: nat)
    requires LegalRun(START, events)
    ensures Somewhere(After(START, events), id) ==> AskedIn(events, id)
    ensures id in After(START, events).memory.round ==> id !in After(START, events).memory.dirty && id !in After(START, events).hand
  {
    RunKeepsPlaces(START, events);
  }
}
