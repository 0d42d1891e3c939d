// How long a claim is good for: a worker that takes a delivery has it to itself for five minutes.
module AlertClaims {
  import opened Options
  import opened AlertRules
  import opened Alerts
  import opened AlertRuns
  import opened AlertOutbox
  import opened AlertTables
  import opened AlertMessages

  // The delivery is still with the worker, or has been canceled or removed with its incident.
  ghost predicate WithWorker(w: World, d: nat, token: nat, at: int) {
    && d < w.tables.nextDelivery
    && (d in w.tables.deliveries && w.tables.deliveries[d].status != Canceled ==>
          && w.tables.deliveries[d].status == Processing && w.tables.deliveries[d].token == token
          && w.tables.deliveries[d].lastAttempt == Some(at))
  }

  // Nobody finishes the delivery under the token, and no claim comes more than five minutes after the one that took it.
  ghost predicate LeavesAlone(step: Step, d: nat, token: nat, at: int) {
    && (step.Finish? ==> step.delivery != d || step.token != token)
    && (step.Claim? ==> step.now <= at + 300 * SECOND)
  }

  lemma ClaimKeepsWithWorker(w: World, claimed: set<nat>, now: int, d: nat, token: nat, at: int)
    requires Legal(w, Claim(claimed, now)) && WithWorker(w, d, token, at) && now <= at + 300 * SECOND
    ensures WithWorker(Next(w, Claim(claimed, now)), d, token, at)
  {
    if d in w.tables.deliveries {
      assert Reclaimed(w.tables.deliveries, now)[d] == w.tables.deliveries[d];
      assert d in claimed ==> Eligible(Reclaimed(w.tables.deliveries, now), now, d);
    }
  }

  lemma StepKeepsWithWorker(w: World, step: Step, d: nat, token: nat, at: int)
    requires Sound(w) && Legal(w, step) && WithWorker(w, d, token, at) && LeavesAlone(step, d, token, at)
    ensures WithWorker(Next(w, step), d, token, at)
  {
    hide Safe, Fenced, InOrder, RulesAfter, IncidentsAfter, BatchMessages, DeliveriesAfter, Eligible, RotatorRules, ActiveIncidents;
    StepKeepsNewer(w, step, d);
    if step.Claim? {
      ClaimKeepsWithWorker(w, step.claimed, step.now, d, token, at);
    } else if step.Observe? && d in w.tables.deliveries {
      InsertKeepsCanceled(w.tables, step.batch,
                          BatchMessages(w.tables, step.batch, Openings(w.tables.rules, step.batch, step.order), Closings(w.tables.rules, step.batch, step.order)), d);
    }
  }

  lemma {:induction false} RunKeepsWithWorker(w: World, steps: seq<Step>, d: nat, token: nat, at: int)
    requires Sound(w) && LegalRun(w, steps) && WithWorker(w, d, token, at)
    requires forall k | 0 <= k < |steps| :: LeavesAlone(steps[k], d, token, at)
    ensures WithWorker(After(w, steps), d, token, at)
    decreases |steps|
  {
    if steps != [] {
      StepKeepsWithWorker(w, steps[0], d, token, at);
      StepKeepsSound(w, steps[0]);
      RunKeepsWithWorker(Next(w, steps[0]), steps[1..], d, token, at);
    }
  }

  // In every run, a claimed delivery keeps its token and its status for five minutes, whatever else happens, unless
  // its worker finishes it, it is canceled, or its incident's history is removed.
  lemma ClaimIsGoodForFiveMinutes(w: World, claimed: set<nat>, now: int, d: nat, steps: seq<Step>)
    requires Reachable(w) && Legal(w, Claim(claimed, now)) && d in claimed
    requires LegalRun(Next(w, Claim(claimed, now)), steps)
    requires forall k | 0 <= k < |steps| :: LeavesAlone(steps[k], d, w.nextToken, now)
    ensures var deliveries := After(Next(w, Claim(claimed, now)), steps).tables.deliveries;
            d in deliveries && deliveries[d].status != Canceled ==>
              deliveries[d].status == Processing && deliveries[d].token == w.nextToken && deliveries[d].lastAttempt == Some(now)
  {
    hide InOrder, Fenced, Eligible;
    ReachableIsSound(w);
    StepKeepsSound(w, Claim(claimed, now));
    ClaimableInTimes(w.tables.deliveries, now, d);
    RunKeepsWithWorker(Next(w, Claim(claimed, now)), steps, d, w.nextToken, now);
  }

  // ---- Retries ------------------------------------------------------------------------------------------------

  // Nothing older for the same incident and destination waits behind a failed delivery.
  ghost predicate FailedInOrder(deliveries: map<nat, Delivery>) {
    forall d | d in deliveries && deliveries[d].status == Failed :: Settles(deliveries, d)
  }

  // A step other than a claim: what fails was in flight or had failed, and nothing settled waits again behind it.
  lemma AdvancesKeepsFailed(before: map<nat, Delivery>, after: map<nat, Delivery>)
    requires InOrder(before) && FailedInOrder(before) && Advances(before, after)
    requires forall d | d in after && after[d].status == Failed :: d in before && (before[d].status == Failed || before[d].status == Processing)
    ensures FailedInOrder(after)
  {
    forall d | d in after && after[d].status == Failed ensures Settles(after, d) {
      assert Settles(before, d);
    }
  }

  lemma FailedWasInFlight(w: World, step: Step, d: nat)
    requires Sound(w) && Legal(w, step) && !step.Claim? && d in Next(w, step).tables.deliveries
    requires Next(w, step).tables.deliveries[d].status == Failed
    ensures d in w.tables.deliveries && (w.tables.deliveries[d].status == Failed || w.tables.deliveries[d].status == Processing)
  {
    hide Safe, Fenced, InOrder, RulesAfter, IncidentsAfter, BatchMessages, DeliveriesAfter, Eligible, RotatorRules, ActiveIncidents;
    if step.Observe? {
      ObservedNewDelivery(w.tables, step.batch, step.order, d);
      InsertKeepsCanceled(w.tables, step.batch,
                          BatchMessages(w.tables, step.batch, Openings(w.tables.rules, step.batch, step.order), Closings(w.tables.rules, step.batch, step.order)), d);
    }
  }

  lemma ClaimKeepsFailed(deliveries: map<nat, Delivery>, claimed: set<nat>, token: nat, now: int)
    requires InOrder(deliveries) && FailedInOrder(deliveries)
    requires forall d | d in claimed :: Eligible(Reclaimed(deliveries, now), now, d)
    ensures FailedInOrder(Taken(Reclaimed(deliveries, now), claimed, token, now))
  {
    var after := Taken(Reclaimed(deliveries, now), claimed, token, now);
    forall d | d in after && after[d].status == Failed ensures Settles(after, d) {
      assert Settles(deliveries, d);
    }
  }

  lemma {:induction false} RunKeepsFailed(w: World, steps: seq<Step>)
    requires Sound(w) && FailedInOrder(w.tables.deliveries) && LegalRun(w, steps)
    ensures FailedInOrder(After(w, steps).tables.deliveries)
    decreases |steps|
  {
    if steps != [] {
      hide Safe, Fenced, Eligible, FailedInOrder;
      var next := Next(w, steps[0]);
      if steps[0].Claim? {
        ClaimKeepsFailed(w.tables.deliveries, steps[0].claimed, w.nextToken, steps[0].now);
      } else {
        StepAdvances(w, steps[0]);
        forall d | d in next.tables.deliveries && next.tables.deliveries[d].status == Failed { FailedWasInFlight(w, steps[0], d); }
        AdvancesKeepsFailed(w.tables.deliveries, next.tables.deliveries);
      }
      StepKeepsSound(w, steps[0]);
      RunKeepsFailed(next, steps[1..]);
    }
  }

  lemma RetriedIsClaimable(s: State, d: nat, now: int)
    requires Retryable(s, d) && Settles(s.deliveries, d)
    ensures Claimable(Retried(s, d, now).deliveries, now, d)
  {
    hide Live;
    var after := Retried(s, d, now).deliveries;
    assert after == s.deliveries[d := after[d]];
  }

  lemma ReachableFailed(w: World)
    requires Reachable(w)
    ensures FailedInOrder(w.tables.deliveries)
  {
    var steps :| LegalRun(START, steps) && After(START, steps) == w;
    RunKeepsFailed(START, steps);
  }

  // In every reachable state, a delivery that may be retried can be claimed at once.
  lemma RetryGoesOut(w: World, d: nat, now: int)
    requires Reachable(w) && Retryable(w.tables, d)
    ensures Claimable(Next(w, Retry(d, now)).tables.deliveries, now, d)
  {
    hide Claimable, Reachable, Settles;
    ReachableFailed(w);
    RetriedIsClaimable(w.tables, d, now);
  }

  // ---- Destinations -------------------------------------------------------------------------------------------

  // What is pending or in flight goes to a destination that is enabled and not deleted.
  ghost predicate GoesToEnabled(s: State) {
    forall d | d in s.deliveries && Waiting(s.deliveries[d]) :: IsEnabled(s.destinations, s.deliveries[d].destination)
  }

  ghost predicate IsEnabled(destinations: map<nat, Destination>, id: nat) {
    id in destinations && destinations[id].enabled && !destinations[id].deleted
  }

  lemma ObservedGoesToEnabled(s: State, b: Batch, order: seq<nat>)
    requires Safe(s) && Covers(b, order) && GoesToEnabled(s)
    ensures GoesToEnabled(Observed(s, b, order))
  {
    hide RulesAfter, IncidentsAfter, BatchMessages, DeliveriesAfter, Safe, Opening, Closing, MeasuredValue;
    var t := Observed(s, b, order);
    forall d | d in t.deliveries && Waiting(t.deliveries[d]) ensures IsEnabled(t.destinations, t.deliveries[d].destination) {
      if d in s.deliveries {
        InsertKeepsCanceled(s, b, BatchMessages(s, b, Openings(s.rules, b, order), Closings(s.rules, b, order)), d);
      } else {
        ToldExactly(s, b, order, t.deliveries[d]);
        var id :| Tells(s, b, t, id, t.deliveries[d]);
      }
    }
  }

  lemma StepGoesToEnabled(w: World, step: Step)
    requires Sound(w) && Legal(w, step) && GoesToEnabled(w.tables)
    ensures GoesToEnabled(Next(w, step).tables)
  {
    hide Safe, Fenced, InOrder, RulesAfter, IncidentsAfter, BatchMessages, DeliveriesAfter, RotatorRules, ActiveIncidents;
    if step.Observe? { ObservedGoesToEnabled(w.tables, step.batch, step.order); }
  }

  lemma {:induction false} RunGoesToEnabled(w: World, steps: seq<Step>)
    requires Sound(w) && LegalRun(w, steps) && GoesToEnabled(w.tables)
    ensures GoesToEnabled(After(w, steps).tables)
    decreases |steps|
  {
    if steps != [] {
      StepGoesToEnabled(w, steps[0]);
      StepKeepsSound(w, steps[0]);
      RunGoesToEnabled(Next(w, steps[0]), steps[1..]);
    }
  }

  // In every reachable state, nothing is pending or in flight to a destination that is disabled or deleted.
  lemma NothingGoesToDisabled(w: World, d: nat)
    requires Reachable(w) && d in w.tables.deliveries
    requires w.tables.deliveries[d].status == Pending || w.tables.deliveries[d].status == Processing
    ensures var destination := w.tables.deliveries[d].destination;
            destination in w.tables.destinations && w.tables.destinations[destination].enabled && !w.tables.destinations[destination].deleted
  {
    var steps :| LegalRun(START, steps) && After(START, steps) == w;
    RunGoesToEnabled(START, steps);
  }
}
