// The alert tables as an object: each transaction updates them in place.
module AlertTables {
  import opened Options
  import opened AlertRules
  import opened Alerts
  import opened AlertRuns
  import opened AlertStore
  import opened Ids

  // ---- Scheduling -----------------------------------------------------------------------------------------

  predicate Startable(rules: map<nat, Rule>, revisions: map<nat, nat>, now: int, id: nat) {
    && id in revisions && id in rules && rules[id].revision == revisions[id] && rules[id].enabled && !rules[id].deleted
    && (rules[id].lastAttempt.None? || rules[id].lastAttempt.value < now)
  }

  // Some enabled rule of the workspace already has an attempt at or after this time.
  predicate Attempted(rules: map<nat, Rule>, now: int) {
    exists id | id in rules :: rules[id].enabled && !rules[id].deleted && rules[id].lastAttempt.Some? && rules[id].lastAttempt.value >= now
  }

  // A batch starts exactly if all live enabled rules were last attempted before, and it has one of them as it stands.
  lemma StartsExactly(rules: map<nat, Rule>, revisions: map<nat, nat>, now: int)
    ensures !Attempted(rules, now) && (exists id :: Startable(rules, revisions, now, id)) <==>
              && (forall id | id in rules && rules[id].enabled && !rules[id].deleted :: rules[id].lastAttempt == None || rules[id].lastAttempt.value < now)
              && exists id :: id in revisions && id in rules && rules[id].enabled && !rules[id].deleted && rules[id].revision == revisions[id]
  {
    if !Attempted(rules, now) {
      if id :| id in revisions && id in rules && rules[id].enabled && !rules[id].deleted && rules[id].revision == revisions[id] {
        assert Startable(rules, revisions, now, id);
      }
    }
  }

  // ---- Claiming -------------------------------------------------------------------------------------------

  // The oldest eligible deliveries, no more than the limit.
  ghost predicate OldestEligible(deliveries: map<nat, Delivery>, now: int, limit: int, ids: seq<nat>) {
    && Ascending(ids) && |ids| <= (if limit < 0 then 0 else limit)
    && (forall id | id in ids :: Eligible(deliveries, now, id))
    && (forall id | Eligible(deliveries, now, id) && id !in ids :: |ids| == limit && forall taken | taken in ids :: taken < id)
  }

  // ---- Claiming, in terms of times --------------------------------------------------------------------------

  // A worker had five minutes to finish.
  ghost predicate Interrupted(d: Delivery, now: int) {
    d.status == Processing && d.lastAttempt.Some? && now - d.lastAttempt.value > 300 * SECOND
  }

  // Pending, or interrupted with attempts left; due; and nothing older for the same incident and destination is
  // pending, in flight, or interrupted with attempts left.
  ghost predicate Claimable(deliveries: map<nat, Delivery>, now: int, d: nat) {
    && d in deliveries && CanGoOut(deliveries[d], now) && deliveries[d].nextAttempt <= now
    && forall older | older in deliveries && older < d ::
         && deliveries[older].incident == deliveries[d].incident && deliveries[older].destination == deliveries[d].destination ==>
         !CanGoOut(deliveries[older], now) && (deliveries[older].status == Processing ==> Interrupted(deliveries[older], now))
  }

  ghost predicate CanGoOut(d: Delivery, now: int) {
    d.status == Pending || (Interrupted(d, now) && d.attempts < 4)
  }

  // What a claim leaves: the deliveries it takes under its token, the interrupted ones it does not take back in the
  // queue or failed, and everything else as it was.
  ghost predicate ClaimLeaves(before: map<nat, Delivery>, after: map<nat, Delivery>, ids: seq<nat>, token: nat, now: int) {
    after.Keys == before.Keys && forall d | d in before ::
      if d in ids then
        CanGoOut(before[d], now) &&
        after[d] == before[d].(status := Processing, token := token, attempts := before[d].attempts + 1, lastAttempt := Some(now))
      else if Interrupted(before[d], now) then
        after[d] == before[d].(status := if before[d].attempts < 4 then Pending else Failed, token := 0)
      else
        after[d] == before[d]
  }

  lemma ClaimableInTimes(deliveries: map<nat, Delivery>, now: int, d: nat)
    ensures Eligible(Reclaimed(deliveries, now), now, d) <==> Claimable(deliveries, now, d)
  {
    var reclaimed := Reclaimed(deliveries, now);
    forall k | k in deliveries ensures Waiting(reclaimed[k]) <==> CanGoOut(deliveries[k], now) || (deliveries[k].status == Processing && !Interrupted(deliveries[k], now)) {
    }
    hide Reclaimed;
    assert forall k | k in deliveries :: reclaimed[k].nextAttempt == deliveries[k].nextAttempt;
  }

  lemma ClaimLeavesInTimes(s: Alerts.State, ids: seq<nat>, token: nat, now: int)
    requires forall d | d in ids :: Eligible(Reclaimed(s.deliveries, now), now, d)
    ensures ClaimLeaves(s.deliveries, Claimed(s, Elements(ids), token, now).deliveries, ids, token, now)
  {
    hide Eligible, Claimable;
    forall d | d in ids ensures d in s.deliveries && CanGoOut(s.deliveries[d], now) {
      ClaimableInTimes(s.deliveries, now, d);
      assert Claimable(s.deliveries, now, d) ==> d in s.deliveries && CanGoOut(s.deliveries[d], now) by { TakenCanGoOut(s.deliveries, now, d); }
    }
  }

  lemma TakenCanGoOut(deliveries: map<nat, Delivery>, now: int, d: nat)
    ensures Claimable(deliveries, now, d) ==> d in deliveries && CanGoOut(deliveries[d], now)
  {
  }

  // The oldest of the claimable deliveries, as many as the limit allows.
  ghost predicate OldestClaimable(deliveries: map<nat, Delivery>, now: int, limit: int, ids: seq<nat>) {
    && Ascending(ids) && |ids| <= (if limit < 0 then 0 else limit)
    && (forall d | d in ids :: Claimable(deliveries, now, d))
    && (forall d | Claimable(deliveries, now, d) && d !in ids :: |ids| == limit && forall taken | taken in ids :: taken < d)
  }

  lemma OldestInTimes(deliveries: map<nat, Delivery>, now: int, limit: int, ids: seq<nat>)
    requires OldestEligible(Reclaimed(deliveries, now), now, limit, ids)
    ensures OldestClaimable(deliveries, now, limit, ids)
  {
    hide Eligible, Claimable, Reclaimed;
    forall d { ClaimableInTimes(deliveries, now, d); }
  }

  const HISTORY := 90 * 24 * 3600 * SECOND
  const CLEANUP_BATCH := 1000

  function Expired(incidents: map<nat, Incident>, now: int): set<nat> {
    set i | i in incidents && incidents[i].closedAt.Some? && incidents[i].closedAt.value < now - HISTORY
  }

  // Failed, to a destination that is still enabled, with no later message for the same incident and destination; and
  // the incident did not end with a change of its rule, which is as it was then.
  ghost predicate MayRetry(s: Alerts.State, id: nat) {
    && id in s.deliveries && s.deliveries[id].status == Failed
    && var d := s.deliveries[id];
    && d.destination in s.destinations && s.destinations[d.destination] == Destination(true, false)
    && (forall later | later in s.deliveries && later > id :: s.deliveries[later].incident != d.incident || s.deliveries[later].destination != d.destination)
    && d.incident in s.incidents && s.incidents[d.incident].reason != ConfigurationChanged
    && var incident := s.incidents[d.incident];
    incident.rule in s.rules && !s.rules[incident.rule].deleted && s.rules[incident.rule].revision == incident.revision
  }

  // It has been closed for more than ninety days.
  ghost predicate ClosedBefore(incident: Incident, now: int) {
    incident.closedAt.Some? && now - incident.closedAt.value > 90 * 24 * 3600 * SECOND
  }

  method SelectEligible(deliveries: map<nat, Delivery>, now: int, limit: int) returns (ids: seq<nat>)
    requires limit > 0
    ensures OldestEligible(deliveries, now, limit, ids)
  {
    var order := SortedIds(deliveries.Keys);
    ids := [];
    for k := 0 to |order|
      invariant Ascending(ids) && |ids| <= limit
      invariant forall id | id in ids :: Eligible(deliveries, now, id) && id in order[..k]
      invariant forall id | Eligible(deliveries, now, id) && id !in ids && id in order[..k] :: |ids| == limit && forall taken | taken in ids :: taken < id
    {
      hide Eligible;
      var id := order[k];
      assert order[..k + 1] == order[..k] + [id];
      assert forall taken | taken in order[..k] :: taken < id;
      if |ids| < limit && Eligible(deliveries, now, id) {
        AppendAscending(ids, id);
        ids := ids + [id];
      }
    }
    assert order[..|order|] == order;
    forall id | Eligible(deliveries, now, id) ensures id in order {
      assert id in Elements(order);
    }
  }

  class Tables {
    var rules: map<nat, Rule>
    var incidents: map<nat, Incident>
    var deliveries: map<nat, Delivery>
    var destinations: map<nat, Destination>
    var nextIncident: nat
    var nextDelivery: nat

    function State(): Alerts.State
      reads this
    {
      Alerts.State(rules, incidents, deliveries, destinations, nextIncident, nextDelivery)
    }

    constructor ()
      ensures State() == Alerts.State(map[], map[], map[], map[], 1, 1)
    {
      rules, incidents, deliveries, destinations := map[], map[], map[], map[];
      nextIncident, nextDelivery := 1, 1;
    }

    // The consistency checks before an incident closes are there, and never fail.
    method ApplyAlertObservations(b: Batch, order: seq<nat>) returns (failure: Option<Failure>)
      requires Safe(State()) && Covers(b, order)
      modifies this
      ensures failure.None? && State() == Observed(old(State()), b, order)
    {
      hide Safe, Collected, CarriedOut, RecoveredTo, Matches, IncidentsAfter, RulesAfter, OpenedIncidents, ClosedForConfiguration, CanceledFor, Transitions, Messages, Closing, Opening, DetachedSet, ActiveIncidents;
      ghost var s := State();
      var p := JudgeRules(rules, b, order);
      GoneIsDetached(rules, b, order, p, nextIncident);
      assert Distinct(p.opening) && Distinct(p.closing) by { PassDistinct(rules, b, order, p); }
      var closed, canceled := CloseRules(rules, incidents, deliveries, p.gone, b.now);
      var withOpened, settled := OpenIncidents(rules, b, p.opening, nextIncident, closed, p.judged);
      AllMatch(s, b, p.opening, p.closing, closed);
      var after, done;
      failure, after, done := RecoverIncidents(rules, b, p.opening, p.closing, nextIncident, withOpened, settled);
      if failure.Some? { return; }
      FinalRules(rules, b, order, p, nextIncident, done);
      FinalIncidents(s, b, p.opening, p.closing, closed, after);
      var messages := QueueAlertTransitions(rules, destinations, Transitions(rules, b, p.opening, p.closing, nextIncident), b.now);
      deliveries := Inserted(canceled, messages, nextDelivery);
      rules, incidents := rules + done, after;
      nextIncident, nextDelivery := nextIncident + |p.opening|, nextDelivery + |messages|;
      assert State() == Observed(s, b, order);
    }

    // Only the first of the batch's rules that is due is marked, and only if no other attempt is as late.
    method RecordAlertEvaluationAttempts(revisions: map<nat, nat>, now: int) returns (started: bool)
      modifies `rules
      ensures started <==> !Attempted(old(rules), now) && exists id :: Startable(old(rules), revisions, now, id)
      ensures started ==> exists id :: Startable(old(rules), revisions, now, id) && (forall other | Startable(old(rules), revisions, now, other) :: id <= other) &&
                                       rules == old(rules)[id := old(rules)[id].(lastAttempt := Some(now))]
      ensures !started ==> rules == old(rules)
      ensures started <==>
                && (forall id | id in old(rules) && old(rules)[id].enabled && !old(rules)[id].deleted ::
                      old(rules)[id].lastAttempt == None || old(rules)[id].lastAttempt.value < now)
                && exists id :: id in revisions && id in old(rules) && old(rules)[id].enabled && !old(rules)[id].deleted &&
                                old(rules)[id].revision == revisions[id]
    {
      StartsExactly(rules, revisions, now);
      hide Attempted;
      var order := SortedIds(revisions.Keys);
      for k := 0 to |order|
        invariant unchanged(this)
        invariant forall n | 0 <= n < k :: !Startable(rules, revisions, now, order[n])
      {
        if Startable(rules, revisions, now, order[k]) {
          forall other | Startable(rules, revisions, now, other) ensures order[k] <= other {
            assert other in Elements(order);
          }
          if Attempted(rules, now) { return false; }
          ghost var id := order[k];
          rules := rules[order[k] := rules[order[k]].(lastAttempt := Some(now))];
          assert Startable(old(rules), revisions, now, id);
          return true;
        }
      }
      forall id ensures !Startable(rules, revisions, now, id) {
        assert id in revisions ==> id in Elements(order);
      }
      started := false;
    }

    // A rule write: an existing rule first closes and cancels what its old revision left.
    method SaveAlertRule(id: nat, w: RuleWrite, now: int) returns (ok: bool)
      modifies this
      ensures State() == SavedRule(old(State()), id, w, now)
      ensures ok <==> id !in old(rules) || !old(rules)[id].deleted
    {
      hide ConfigurationChange, Written;
      if id !in rules {
        rules := rules[id := Written(1, w)];
        return true;
      }
      if rules[id].deleted { return false; }
      CloseRule(id, now);
      rules := rules[id := Written(rules[id].revision + 1, w)];
      ok := true;
    }

    method CloseRule(id: nat, now: int)
      requires id in rules
      modifies `incidents, `deliveries
      ensures State() == ConfigurationChange(old(State()), {id}, now)
      ensures rules == old(rules)
    {
      incidents, deliveries := AlertStore.CloseAlertForConfiguration(incidents, deliveries, id, rules[id].active, now);
      assert ActiveIncidents(rules, {id}) == if rules[id].active.Some? then {rules[id].active.value} else {};
    }

    method DeleteAlertRule(id: nat, now: int) returns (ok: bool)
      modifies this
      ensures State() == DeletedRule(old(State()), id, now)
      ensures ok <==> Live(old(State()), id)
    {
      if id !in rules || rules[id].deleted { return false; }
      CloseRule(id, now);
      rules := rules[id := rules[id].(deleted := true)];
      ok := true;
    }

    // Deleting a rotator disables every rule that measures it.
    method DeleteRotatingProxy(rotator: nat, now: int)
      modifies this
      ensures State() == DeletedRotator(old(State()), rotator, now)
    {
      var gone := Listed(RotatorRules(rules, rotator));
      assert forall id | id in gone :: id in Elements(gone);
      incidents, deliveries := CloseRules(rules, incidents, deliveries, gone, now);
      rules := map id | id in rules :: if id in gone then Detached(rules[id]) else rules[id];
    }

    method ChangeAlertDestination(id: nat, enabled: bool, deleted: bool) returns (ok: bool)
      modifies this
      ensures State() == ChangedDestination(old(State()), id, enabled, deleted)
    {
      if id in destinations {
        if destinations[id].deleted { return false; }
        deliveries := CanceledAt(deliveries, id);
      } else if deleted {
        return false;
      }
      destinations := destinations[id := Destination(enabled, deleted)];
      ok := true;
    }

    // Interrupted claims are recovered first; then the oldest eligible deliveries are taken under one token.
    method ClaimAlertDeliveries(limit: int, token: nat, now: int) returns (ids: seq<nat>)
      modifies `deliveries
      ensures limit <= 0 ==> ids == [] && deliveries == old(deliveries)
      ensures limit > 0 ==> OldestEligible(Reclaimed(old(deliveries), now), now, limit, ids) &&
                            State() == Claimed(old(State()), Elements(ids), token, now)
      ensures limit > 0 ==> OldestClaimable(old(deliveries), now, limit, ids) && ClaimLeaves(old(deliveries), deliveries, ids, token, now)
    {
      hide Claimable, ClaimLeaves;
      if limit <= 0 { return []; }
      ghost var before := State();
      deliveries := Reclaimed(deliveries, now);
      ids := SelectEligible(deliveries, now, limit);
      ghost var reclaimed := deliveries;
      hide Eligible, Reclaimed;
      for k := 0 to |ids|
        invariant deliveries == Taken(reclaimed, Elements(ids[..k]), token, now)
        invariant State() == before.(deliveries := deliveries)
      {
        var id := ids[k];
        assert Eligible(reclaimed, now, id);
        assert id in reclaimed;
        assert ids[..k + 1] == ids[..k] + [id] && id !in ids[..k];
        deliveries := deliveries[id := deliveries[id].(status := Processing, token := token,
                                                       attempts := deliveries[id].attempts + 1, lastAttempt := Some(now))];
      }
      assert ids[..|ids|] == ids;
      OldestInTimes(before.deliveries, now, limit, ids);
      ClaimLeavesInTimes(before, ids, token, now);
    }

    // Only the claim that is still in flight may finish.
    method FinishAlertDelivery(id: nat, token: nat, status: DeliveryStatus, next: int)
      modifies `deliveries
      ensures State() == Finished(old(State()), id, token, status, next)
      ensures deliveries.Keys == old(deliveries).Keys && forall d | d in old(deliveries) ::
                deliveries[d] == if d == id && old(deliveries)[d].status == Processing && old(deliveries)[d].token == token
                                 then old(deliveries)[d].(status := status, nextAttempt := next, token := 0) else old(deliveries)[d]
    {
      if id in deliveries && deliveries[id].status == Processing && deliveries[id].token == token {
        deliveries := deliveries[id := deliveries[id].(status := status, nextAttempt := next, token := 0)];
      }
    }

    method RetryAlertDelivery(id: nat, now: int) returns (ok: bool)
      modifies `deliveries
      ensures State() == Retried(old(State()), id, now) && (ok <==> Retryable(old(State()), id))
      ensures ok <==> MayRetry(old(State()), id)
      ensures deliveries.Keys == old(deliveries).Keys && forall d | d in old(deliveries) ::
                deliveries[d] == if ok && d == id then old(deliveries)[d].(status := Pending, attempts := 0, nextAttempt := now, token := 0)
                                 else old(deliveries)[d]
    {
      ok := Retryable(State(), id);
      if ok {
        deliveries := deliveries[id := deliveries[id].(status := Pending, attempts := 0, nextAttempt := now, token := 0)];
      }
    }

    // The lowest thousand of the incidents that closed more than ninety days ago go, with their deliveries.
    method CleanupAlertHistory(now: int) returns (ids: seq<nat>)
      modifies `incidents, `deliveries
      ensures LowestOf(ids, Expired(old(incidents), now), CLEANUP_BATCH)
      ensures State() == Cleaned(old(State()), Elements(ids))
      ensures forall i | i in old(incidents) && i !in incidents :: ClosedBefore(old(incidents)[i], now)
      ensures forall i | i in incidents :: i in old(incidents) && incidents[i] == old(incidents)[i]
      ensures |ids| == 1000 || forall i | i in incidents :: !ClosedBefore(incidents[i], now)
    {
      var expired := SortedIds(Expired(incidents, now));
      ids := if |expired| <= CLEANUP_BATCH then expired else expired[..CLEANUP_BATCH];
      LowestPrefix(expired, ids, CLEANUP_BATCH);
      var gone := Elements(ids);
      assert gone == set i | i in gone && i in incidents && incidents[i].closedAt.Some?;
      deliveries := map d | d in deliveries && deliveries[d].incident !in gone :: deliveries[d];
      incidents := incidents - gone;
    }
  }

  lemma PassDistinct(rules: map<nat, Rule>, b: Batch, order: seq<nat>, p: Pass)
    requires Covers(b, order) && Collected(rules, b, order, p)
    ensures Distinct(p.opening) && Distinct(p.closing)
  {
    OpeningsDistinct(rules, b, order);
  }
}
