// Every run of the alert tables and their outbox: order per destination, claims, and fenced finishes.
module AlertOutbox {
  import opened Options
  import opened AlertRules
  import opened Alerts
  import opened AlertRuns

  // The tables, the next claim token, and the token of the latest claim of each delivery.
  datatype World = World(tables: State, nextToken: nat, latest: map<nat, nat>)

  datatype Step =
    | Observe(batch: Batch, order: seq<nat>)
    | SaveRule(rule: nat, write: RuleWrite, now: int)
    | DeleteRule(rule: nat, now: int)
    | DeleteRotator(rotator: nat, now: int)
    | ChangeDestination(destination: nat, enabled: bool, deleted: bool)
    | Claim(claimed: set<nat>, now: int)
    | Finish(delivery: nat, token: nat, status: DeliveryStatus, next: int)
    | Retry(delivery: nat, now: int)
    | Cleanup(old_: set<nat>)

  // Several workers claim at once and skip each other's rows, so a claim takes any of the eligible ones.
  ghost predicate Legal(w: World, step: Step) {
    match step
    case Observe(batch, order) => Covers(batch, order)
    case Claim(claimed, now) => forall d | d in claimed :: Eligible(Reclaimed(w.tables.deliveries, now), now, d)
    case Finish(_, _, status, _) => status != Processing
    case _ => true
  }

  ghost function Next(w: World, step: Step): World
    requires Legal(w, step)
  {
    match step
    case Observe(batch, order) => w.(tables := Observed(w.tables, batch, order))
    case SaveRule(rule, write, now) => w.(tables := SavedRule(w.tables, rule, write, now))
    case DeleteRule(rule, now) => w.(tables := DeletedRule(w.tables, rule, now))
    case DeleteRotator(rotator, now) => w.(tables := DeletedRotator(w.tables, rotator, now))
    case ChangeDestination(destination, enabled, deleted) => w.(tables := ChangedDestination(w.tables, destination, enabled, deleted))
    case Claim(claimed, now) =>
      World(Claimed(w.tables, claimed, w.nextToken, now), w.nextToken + 1, w.latest + map d | d in claimed :: w.nextToken)
    case Finish(delivery, token, status, next) => w.(tables := Finished(w.tables, delivery, token, status, next))
    case Retry(delivery, now) => w.(tables := Retried(w.tables, delivery, now))
    case Cleanup(old_) => w.(tables := Cleaned(w.tables, old_))
  }

  // Everything older than a delivery in flight is settled, and a delivery in flight carries its latest token.
  ghost predicate Settles(deliveries: map<nat, Delivery>, d: nat)
    requires d in deliveries
  {
    forall older | older in deliveries && older < d && SameKey(deliveries[older], deliveries[d]) :: !Waiting(deliveries[older])
  }

  ghost predicate InOrder(deliveries: map<nat, Delivery>) {
    forall d | d in deliveries && deliveries[d].status == Processing :: Settles(deliveries, d)
  }

  ghost predicate Fenced(w: World) {
    && w.nextToken > 0
    && (forall d | d in w.latest :: w.latest[d] < w.nextToken)
    && (forall d | d in w.tables.deliveries && w.tables.deliveries[d].status == Processing ::
          d in w.latest && w.tables.deliveries[d].token == w.latest[d])
  }

  ghost predicate Sound(w: World) {
    Safe(w.tables) && InOrder(w.tables.deliveries) && Fenced(w)
  }

  // ---- Order ------------------------------------------------------------------------------------------------

  // Rows keep their key, and one that was settled waits again only if nothing newer of its key exists.
  ghost predicate Advances(before: map<nat, Delivery>, after: map<nat, Delivery>) {
    && (forall d | d in after && d in before :: SameKey(before[d], after[d]))
    && (forall d | d in after && d in before && after[d].status == Processing :: before[d].status == Processing)
    && (forall d | d in after && d in before && Waiting(after[d]) && !Waiting(before[d]) ::
          forall newer | newer in after && newer > d :: !SameKey(after[newer], after[d]))
    && (forall d | d in after && d !in before :: after[d].status != Processing && forall older | older in before :: older < d)
  }

  lemma AdvancesKeepsOrder(before: map<nat, Delivery>, after: map<nat, Delivery>)
    requires InOrder(before) && Advances(before, after)
    ensures InOrder(after)
  {
    forall d | d in after && after[d].status == Processing ensures Settles(after, d) {
      assert Settles(before, d);
    }
  }

  lemma ClaimKeepsOrder(deliveries: map<nat, Delivery>, claimed: set<nat>, token: nat, now: int)
    requires InOrder(deliveries) && forall d | d in claimed :: Eligible(deliveries, now, d)
    ensures InOrder(Taken(deliveries, claimed, token, now))
  {
    var after := Taken(deliveries, claimed, token, now);
    forall d | d in after && after[d].status == Processing ensures Settles(after, d) {
      assert Settles(deliveries, d);
    }
  }

  lemma ObservedNewDelivery(s: State, b: Batch, order: seq<nat>, d: nat)
    requires Safe(s) && Covers(b, order) && d in Observed(s, b, order).deliveries
    ensures d in s.deliveries || (Observed(s, b, order).deliveries[d].status == Pending && d >= s.nextDelivery)
  {
    hide Evaluated, Decide, RuleAfter, IncidentsAfter, Transitions, EffectValue, CanceledFor, Safe, Messages;
    CanceledKeys(s, b);
    if d !in s.deliveries {
      MessageSource(s.rules, s.destinations,
                    Transitions(s.rules, b, Openings(s.rules, b, order), Closings(s.rules, b, order), s.nextIncident), b.now, d - s.nextDelivery);
    }
  }

  lemma InsertKeepsCanceled(s: State, b: Batch, messages: seq<Delivery>, d: nat)
    requires Safe(s) && d in s.deliveries
    ensures d in DeliveriesAfter(s, b, messages)
    ensures var after := DeliveriesAfter(s, b, messages)[d];
            after == s.deliveries[d] || after == s.deliveries[d].(status := Canceled, token := 0)
  {
    hide Decide, DetachedSet;
  }

  lemma ObservedAdvances(s: State, b: Batch, order: seq<nat>)
    requires Safe(s) && Covers(b, order)
    ensures Advances(s.deliveries, Observed(s, b, order).deliveries)
  {
    hide RulesAfter, IncidentsAfter, BatchMessages, DeliveriesAfter;
    var messages := BatchMessages(s, b, Openings(s.rules, b, order), Closings(s.rules, b, order));
    forall d | d in Observed(s, b, order).deliveries && d !in s.deliveries { ObservedNewDelivery(s, b, order, d); }
    forall d | d in s.deliveries { InsertKeepsCanceled(s, b, messages, d); }
  }

  lemma CanceledAdvances(before: map<nat, Delivery>, after: map<nat, Delivery>)
    requires after.Keys <= before.Keys
    requires forall d | d in after :: after[d] == before[d] || after[d] == before[d].(status := Canceled, token := 0)
    ensures Advances(before, after)
  {
  }

  lemma StepAdvances(w: World, step: Step)
    requires Sound(w) && Legal(w, step) && !step.Claim?
    ensures Advances(w.tables.deliveries, Next(w, step).tables.deliveries)
  {
    hide Safe, Fenced, InOrder, RulesAfter, IncidentsAfter, BatchMessages, DeliveriesAfter, Eligible;
    if step.Observe? {
      ObservedAdvances(w.tables, step.batch, step.order);
    } else if !step.Finish? && !step.Retry? {
      CanceledAdvances(w.tables.deliveries, Next(w, step).tables.deliveries);
    }
  }

  lemma StepKeepsOrder(w: World, step: Step)
    requires Sound(w) && Legal(w, step)
    ensures InOrder(Next(w, step).tables.deliveries)
  {
    if step.Claim? {
      AdvancesKeepsOrder(w.tables.deliveries, Reclaimed(w.tables.deliveries, step.now));
      ClaimKeepsOrder(Reclaimed(w.tables.deliveries, step.now), step.claimed, w.nextToken, step.now);
    } else {
      StepAdvances(w, step);
      AdvancesKeepsOrder(w.tables.deliveries, Next(w, step).tables.deliveries);
    }
  }

  // ---- Every run --------------------------------------------------------------------------------------------

  lemma StepKeepsSafe(w: World, step: Step)
    requires Sound(w) && Legal(w, step)
    ensures Safe(Next(w, step).tables)
  {
    hide Safe, Eligible, Observed, SavedRule, DeletedRule, DeletedRotator, ChangedDestination, Claimed, Finished, Retried, Cleaned;
    match step
    case Observe(batch, order) => ObservedKeepsSafe(w.tables, batch, order);
    case SaveRule(rule, write, now) => SavedKeepsSafe(w.tables, rule, write, now);
    case DeleteRule(rule, now) => DeletedKeepsSafe(w.tables, rule, now);
    case DeleteRotator(rotator, now) => RotatorKeepsSafe(w.tables, rotator, now);
    case ChangeDestination(destination, enabled, deleted) => DestinationKeepsSafe(w.tables, destination, enabled, deleted);
    case Claim(claimed, now) => ClaimKeepsSafe(w.tables, claimed, w.nextToken, now);
    case Finish(delivery, token, status, next) => FinishKeepsSafe(w.tables, delivery, token, status, next);
    case Retry(delivery, now) => RetryKeepsSafe(w.tables, delivery, now);
    case Cleanup(old_) => CleanupKeepsSafe(w.tables, old_);
  }

  lemma ObservedProcessing(s: State, b: Batch, order: seq<nat>, d: nat)
    requires Safe(s) && Covers(b, order) && d in Observed(s, b, order).deliveries
    requires Observed(s, b, order).deliveries[d].status == Processing
    ensures d in s.deliveries && s.deliveries[d] == Observed(s, b, order).deliveries[d]
  {
    hide RulesAfter, IncidentsAfter, BatchMessages, DeliveriesAfter;
    ObservedNewDelivery(s, b, order, d);
    InsertKeepsCanceled(s, b, BatchMessages(s, b, Openings(s.rules, b, order), Closings(s.rules, b, order)), d);
  }

  lemma StepKeepsFenced(w: World, step: Step)
    requires Sound(w) && Legal(w, step)
    ensures Fenced(Next(w, step))
  {
    hide Safe, RulesAfter, IncidentsAfter, BatchMessages, DeliveriesAfter, InOrder, Retryable;
    if step.Observe? {
      var after := Observed(w.tables, step.batch, step.order).deliveries;
      forall d | d in after && after[d].status == Processing { ObservedProcessing(w.tables, step.batch, step.order, d); }
    }
  }

  lemma StepKeepsSound(w: World, step: Step)
    requires Sound(w) && Legal(w, step)
    ensures Sound(Next(w, step))
  {
    hide Safe, InOrder, Fenced;
    StepKeepsSafe(w, step);
    StepKeepsOrder(w, step);
    StepKeepsFenced(w, step);
  }

  ghost predicate LegalRun(w: World, steps: seq<Step>)
    decreases |steps|
  {
    steps != [] ==> Legal(w, steps[0]) && LegalRun(Next(w, steps[0]), steps[1..])
  }

  ghost function After(w: World, steps: seq<Step>): World
    requires LegalRun(w, steps)
    decreases |steps|
  {
    if steps == [] then w else After(Next(w, steps[0]), steps[1..])
  }

  const START := World(State(map[], map[], map[], map[], 1, 1), 1, map[])

  ghost predicate Reachable(w: World) {
    exists steps :: LegalRun(START, steps) && After(START, steps) == w
  }

  lemma {:induction false} RunKeepsSound(w: World, steps: seq<Step>)
    requires Sound(w) && LegalRun(w, steps)
    ensures Sound(After(w, steps))
    decreases |steps|
  {
    if steps != [] {
      StepKeepsSound(w, steps[0]);
      RunKeepsSound(Next(w, steps[0]), steps[1..]);
    }
  }

  lemma ReachableIsSound(w: World)
    requires Reachable(w)
    ensures Sound(w)
  {
    var steps :| LegalRun(START, steps) && After(START, steps) == w;
    RunKeepsSound(START, steps);
  }

  // Each live rule has at most one open incident: the one it names, under its current revision; and what
  // waits to be delivered belongs to a live rule's current revision.
  lemma OneOpenIncident(w: World, i: nat, j: nat)
    requires Reachable(w)
    requires i in w.tables.incidents && w.tables.incidents[i].closedAt.None?
    requires j in w.tables.incidents && w.tables.incidents[j].closedAt.None? && w.tables.incidents[i].rule == w.tables.incidents[j].rule
    ensures i == j && Named(w.tables, i)
  {
    ReachableIsSound(w);
    assert Named(w.tables, i) && Named(w.tables, j);
  }

  lemma WaitingIsCurrent(w: World, d: nat)
    requires Reachable(w) && d in w.tables.deliveries && Waiting(w.tables.deliveries[d])
    ensures w.tables.deliveries[d].incident in w.tables.incidents && CurrentDelivery(w.tables, d)
  {
    ReachableIsSound(w);
  }

  // The checks that guard closing an incident never fail.
  lemma ClosingNeverFails(w: World, b: Batch, id: nat)
    requires Reachable(w) && Closing(w.tables.rules, b, id)
    ensures w.tables.rules[id].active.Some?
    ensures var s := w.tables;
            var incidents := ClosedForConfiguration(s.incidents, ActiveIncidents(s.rules, DetachedSet(s.rules, b)), b.now);
            var i := s.rules[id].active.value;
            i in incidents && incidents[i].closedAt.None? && incidents[i].rule == id && incidents[i].revision == s.rules[id].revision
  {
    ReachableIsSound(w);
    ClosingChecksHold(w.tables, b, id);
  }

  // At most one delivery of an incident to a destination is in flight.
  lemma OneInFlight(w: World, a: nat, b: nat)
    requires Reachable(w) && a in w.tables.deliveries && b in w.tables.deliveries
    requires w.tables.deliveries[a].status == Processing && w.tables.deliveries[b].status == Processing
    requires SameKey(w.tables.deliveries[a], w.tables.deliveries[b])
    ensures a == b
  {
    ReachableIsSound(w);
    assert Settles(w.tables.deliveries, a) && Settles(w.tables.deliveries, b);
  }

  // A delivery that will never be claimed again: gone, or settled with a newer one of its key.
  ghost predicate Passed(w: World, d: nat) {
    && d < w.tables.nextDelivery
    && (d in w.tables.deliveries ==>
          !Waiting(w.tables.deliveries[d]) &&
          exists newer :: newer in w.tables.deliveries && newer > d && SameKey(w.tables.deliveries[newer], w.tables.deliveries[d]))
  }

  // Rows go only with all rows of their incident.
  ghost predicate KeepsNewer(before: map<nat, Delivery>, after: map<nat, Delivery>, d: nat) {
    d in after && d in before ==>
      forall newer | newer in before && SameKey(before[newer], before[d]) :: newer in after && SameKey(after[newer], after[d])
  }

  lemma ObservedKeepsNewer(s: State, b: Batch, order: seq<nat>, d: nat)
    requires Safe(s) && Covers(b, order) && d < s.nextDelivery
    ensures KeepsNewer(s.deliveries, Observed(s, b, order).deliveries, d)
    ensures d in Observed(s, b, order).deliveries ==> d in s.deliveries
  {
    hide RulesAfter, IncidentsAfter, BatchMessages, DeliveriesAfter, Safe;
    var messages := BatchMessages(s, b, Openings(s.rules, b, order), Closings(s.rules, b, order));
    forall k | k in s.deliveries { InsertKeepsCanceled(s, b, messages, k); }
    if d in Observed(s, b, order).deliveries { ObservedNewDelivery(s, b, order, d); }
  }

  lemma StepKeepsNewer(w: World, step: Step, d: nat)
    requires Sound(w) && Legal(w, step) && d < w.tables.nextDelivery
    ensures KeepsNewer(w.tables.deliveries, Next(w, step).tables.deliveries, d)
    ensures w.tables.nextDelivery <= Next(w, step).tables.nextDelivery
    ensures d in Next(w, step).tables.deliveries ==> d in w.tables.deliveries
  {
    hide RulesAfter, IncidentsAfter, BatchMessages, DeliveriesAfter, Safe, Fenced, InOrder, Eligible, RotatorRules, ActiveIncidents;
    if step.Observe? { ObservedKeepsNewer(w.tables, step.batch, step.order, d); }
  }

  lemma StepKeepsPassed(w: World, step: Step, d: nat)
    requires Sound(w) && Legal(w, step) && Passed(w, d)
    ensures Passed(Next(w, step), d) && (step.Claim? ==> d !in step.claimed)
  {
    hide Safe, Fenced;
    StepKeepsNewer(w, step, d);
    if step.Claim? {
      var reclaimed := Reclaimed(w.tables.deliveries, step.now);
      assert d in step.claimed ==> Eligible(reclaimed, step.now, d);
    } else {
      StepAdvances(w, step);
    }
    var before, after := w.tables.deliveries, Next(w, step).tables.deliveries;
    if d in after {
      var newer :| newer in before && newer > d && SameKey(before[newer], before[d]);
      assert newer in after && SameKey(after[newer], after[d]);
    }
  }

  ghost predicate NeverClaims(steps: seq<Step>, d: nat) {
    forall k | 0 <= k < |steps| && steps[k].Claim? :: d !in steps[k].claimed
  }

  lemma {:induction false} PassedIsNeverClaimed(w: World, steps: seq<Step>, d: nat)
    requires Sound(w) && LegalRun(w, steps) && Passed(w, d)
    ensures NeverClaims(steps, d)
    decreases |steps|
  {
    if steps != [] {
      StepKeepsPassed(w, steps[0], d);
      StepKeepsSound(w, steps[0]);
      PassedIsNeverClaimed(Next(w, steps[0]), steps[1..], d);
      forall k | 0 <= k < |steps| && steps[k].Claim? ensures d !in steps[k].claimed {
        assert k > 0 ==> steps[k] == steps[1..][k - 1];
      }
    }
  }

  // Once a newer event is claimed, no older event for the same incident and destination is ever claimed
  // again: not by recovery of stale claims, not by a retry, and not after a cancellation.
  lemma OlderNeverClaimedAgain(w: World, claimed: set<nat>, now: int, newer: nat, older: nat, steps: seq<Step>)
    requires Reachable(w) && Legal(w, Claim(claimed, now)) && newer in claimed
    requires older in w.tables.deliveries && older < newer && SameKey(w.tables.deliveries[older], w.tables.deliveries[newer])
    requires LegalRun(Next(w, Claim(claimed, now)), steps)
    ensures NeverClaims(steps, older)
  {
    ReachableIsSound(w);
    var step := Claim(claimed, now);
    var reclaimed := Reclaimed(w.tables.deliveries, now);
    assert Eligible(reclaimed, now, newer) && SameKey(reclaimed[older], reclaimed[newer]);
    var after := Next(w, step);
    assert older !in claimed by { assert older in claimed ==> Eligible(reclaimed, now, older); }
    assert SameKey(after.tables.deliveries[newer], after.tables.deliveries[older]);
    StepKeepsSound(w, step);
    PassedIsNeverClaimed(after, steps, older);
  }

  // A finish changes nothing unless it carries the token of the delivery's latest claim, still in flight.
  lemma SupersededFinishChangesNothing(w: World, d: nat, token: nat, status: DeliveryStatus, next: int)
    requires Reachable(w) && status != Processing
    requires d !in w.latest || token != w.latest[d] || d !in w.tables.deliveries || w.tables.deliveries[d].status != Processing
    ensures Next(w, Finish(d, token, status, next)) == w
  {
    ReachableIsSound(w);
  }

  // Each claim outdates every token handed out before it.
  lemma ClaimOutdates(w: World, claimed: set<nat>, now: int, d: nat)
    requires Reachable(w) && Legal(w, Claim(claimed, now)) && d in claimed
    ensures var after := Next(w, Claim(claimed, now));
            && after.latest[d] == w.nextToken && after.tables.deliveries[d].status == Processing
            && after.tables.deliveries[d].token == w.nextToken && (d in w.latest ==> w.latest[d] < after.latest[d])
  {
    ReachableIsSound(w);
    assert Eligible(Reclaimed(w.tables.deliveries, now), now, d);
  }
}
