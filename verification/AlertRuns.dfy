// What every run of alert transactions keeps: one open incident per rule, and no delivery of an old revision.
module AlertRuns {
  import opened Options
  import opened AlertRules
  import opened Alerts

  // An open incident is the one its live rule names, under the rule's current revision.
  ghost predicate Named(s: State, i: nat)
    requires i in s.incidents
  {
    var incident := s.incidents[i];
    Live(s, incident.rule) && s.rules[incident.rule].active == Some(i) && s.rules[incident.rule].revision == incident.revision
  }

  ghost predicate NamesOpen(s: State, id: nat)
    requires id in s.rules
  {
    s.rules[id].active.Some? ==>
      var i := s.rules[id].active.value;
      i in s.incidents && s.incidents[i].closedAt.None? && s.incidents[i].rule == id
  }

  ghost predicate CurrentDelivery(s: State, d: nat)
    requires d in s.deliveries && s.deliveries[d].incident in s.incidents
  {
    var incident := s.incidents[s.deliveries[d].incident];
    Live(s, incident.rule) && s.rules[incident.rule].revision == incident.revision
  }

  ghost predicate Safe(s: State) {
    && (forall i | i in s.incidents :: i < s.nextIncident)
    && (forall d | d in s.deliveries :: d < s.nextDelivery && s.deliveries[d].incident in s.incidents)
    && (forall i | i in s.incidents && s.incidents[i].closedAt.None? :: Named(s, i))
    && (forall id | id in s.rules && !s.rules[id].deleted :: NamesOpen(s, id))
    && (forall d | d in s.deliveries && Waiting(s.deliveries[d]) :: CurrentDelivery(s, d))
  }

  // ---- Evaluation -------------------------------------------------------------------------------------------

  lemma DecisionKeepsIdentity(rules: map<nat, Rule>, b: Batch, opening: seq<nat>, first: nat, id: nat)
    requires id in rules && (Opening(rules, b, id) ==> id in opening)
    ensures var after := RuleAfter(rules, b, opening, first, id);
            && after.deleted == rules[id].deleted
            && (Decide(rules, b, id).Detaches? ==> after.active == None && after.revision == rules[id].revision + 1)
            && (!Decide(rules, b, id).Detaches? ==> after.revision == rules[id].revision)
            && (Opening(rules, b, id) ==> rules[id].active == None && after.active == Some(first + IndexOf(opening, id)))
            && (Closing(rules, b, id) ==> rules[id].active.Some? && after.active == None)
            && (!Decide(rules, b, id).Detaches? && !Opening(rules, b, id) && !Closing(rules, b, id) ==> after.active == rules[id].active)
  {
  }

  ghost predicate Distinct(ids: seq<nat>) {
    forall i, j | 0 <= i < j < |ids| :: ids[i] != ids[j]
  }

  ghost predicate Covers(b: Batch, order: seq<nat>) {
    && (forall id | id in b.inputs :: id in order)
    && Distinct(order)
  }

  lemma {:induction false} OpeningsDistinct(rules: map<nat, Rule>, b: Batch, order: seq<nat>)
    requires Distinct(order)
    ensures Distinct(Openings(rules, b, order)) && Distinct(Closings(rules, b, order))
  {
    if order != [] {
      var n := |order| - 1;
      OpeningsDistinct(rules, b, order[..n]);
      assert order[n] !in order[..n];
    }
  }

  lemma OpeningInOrder(rules: map<nat, Rule>, b: Batch, order: seq<nat>, id: nat)
    requires Covers(b, order)
    ensures Opening(rules, b, id) <==> id in Openings(rules, b, order)
    ensures Closing(rules, b, id) <==> id in Closings(rules, b, order)
    ensures Opening(rules, b, id) || Closing(rules, b, id) ==> id in rules && !rules[id].deleted && !Decide(rules, b, id).Detaches?
    ensures !(Opening(rules, b, id) && Closing(rules, b, id))
  {
  }

  // The incidents that a detached rule names are those of detached rules.
  lemma DetachedIncident(s: State, b: Batch, i: nat)
    requires Safe(s) && i in s.incidents && s.incidents[i].closedAt.None?
    ensures i in ActiveIncidents(s.rules, DetachedSet(s.rules, b)) <==> Decide(s.rules, b, s.incidents[i].rule).Detaches?
  {
    hide Evaluated;
    assert Named(s, i);
    forall id | id in DetachedSet(s.rules, b) && id in s.rules && s.rules[id].active == Some(i) ensures id == s.incidents[i].rule {
      assert NamesOpen(s, id);
    }
  }

  // An old incident after the transaction: closed if its rule detached or recovered.
  lemma OldIncident(s: State, b: Batch, opening: seq<nat>, i: nat)
    requires Safe(s) && i in s.incidents && forall id | id in opening :: id in s.rules
    ensures var after := IncidentsAfter(s, b, opening);
            && i in after && after[i].rule == s.incidents[i].rule && after[i].revision == s.incidents[i].revision
            && (after[i].closedAt.None? <==>
                  s.incidents[i].closedAt.None? && !Decide(s.rules, b, s.incidents[i].rule).Detaches? && !Closing(s.rules, b, s.incidents[i].rule))
  {
    hide Evaluated, Decide, ActiveIncidents, DetachedSet;
    if s.incidents[i].closedAt.None? {
      DetachedIncident(s, b, i);
      assert Named(s, i);
    }
  }

  lemma NewIncidents(s: State, b: Batch, opening: seq<nat>, i: nat)
    requires Safe(s) && forall id | id in opening :: id in s.rules
    ensures var after := IncidentsAfter(s, b, opening);
            && (i in after <==> i in s.incidents || s.nextIncident <= i < s.nextIncident + |opening|)
            && (s.nextIncident <= i < s.nextIncident + |opening| ==> after[i] == NewIncident(s.rules, b, opening[i - s.nextIncident]))
  {
    hide Evaluated, Decide, ActiveIncidents, DetachedSet, Closing, NewIncident;
  }

  lemma ObservedIncident(s: State, b: Batch, order: seq<nat>, i: nat)
    requires Safe(s) && Covers(b, order) && i in Observed(s, b, order).incidents
    ensures i < Observed(s, b, order).nextIncident
    ensures Observed(s, b, order).incidents[i].closedAt.None? ==> Named(Observed(s, b, order), i)
  {
    hide Evaluated, Decide, RuleAfter, IncidentsAfter, BatchMessages, DeliveriesAfter, Distinct, EffectValue;
    var opening := Openings(s.rules, b, order);
    OpeningsDistinct(s.rules, b, order);
    NewIncidents(s, b, opening, i);
    if i in s.incidents {
      OldIncident(s, b, opening, i);
      var id := s.incidents[i].rule;
      if s.incidents[i].closedAt.None? {
        assert Named(s, i);
        OpeningInOrder(s.rules, b, order, id);
        DecisionKeepsIdentity(s.rules, b, opening, s.nextIncident, id);
      }
    } else {
      var id := opening[i - s.nextIncident];
      OpeningInOrder(s.rules, b, order, id);
      DecisionKeepsIdentity(s.rules, b, opening, s.nextIncident, id);
    }
  }

  lemma ObservedRule(s: State, b: Batch, order: seq<nat>, id: nat)
    requires Safe(s) && Covers(b, order) && Live(s, id)
    ensures NamesOpen(Observed(s, b, order), id)
  {
    hide Evaluated, Decide, RuleAfter, IncidentsAfter, BatchMessages, DeliveriesAfter, Distinct, EffectValue;
    var opening := Openings(s.rules, b, order);
    OpeningInOrder(s.rules, b, order, id);
    DecisionKeepsIdentity(s.rules, b, opening, s.nextIncident, id);
    assert NamesOpen(s, id);
    if Opening(s.rules, b, id) {
      NewIncidents(s, b, opening, s.nextIncident + IndexOf(opening, id));
    } else if s.rules[id].active.Some? {
      OldIncident(s, b, opening, s.rules[id].active.value);
    }
  }

  // Every message is for an incident that opened or recovered in this transaction.
  lemma {:induction false} MessageSource(rules: map<nat, Rule>, destinations: map<nat, Destination>, transitions: seq<Transition>, now: int, k: nat)
    requires k < |Messages(rules, destinations, transitions, now)|
    ensures exists j :: 0 <= j < |transitions| && transitions[j].incident == Messages(rules, destinations, transitions, now)[k].incident
    ensures Messages(rules, destinations, transitions, now)[k].status == Pending
  {
    var n := |transitions| - 1;
    var before := Messages(rules, destinations, transitions[..n], now);
    if k < |before| {
      MessageSource(rules, destinations, transitions[..n], now, k);
      var j :| 0 <= j < n && transitions[..n][j].incident == before[k].incident;
      assert transitions[j].incident == before[k].incident;
    } else {
      assert transitions[n].incident == Messages(rules, destinations, transitions, now)[k].incident;
    }
  }

  lemma TransitionIncident(s: State, b: Batch, order: seq<nat>, j: nat)
    requires Safe(s) && Covers(b, order)
    requires j < |Transitions(s.rules, b, Openings(s.rules, b, order), Closings(s.rules, b, order), s.nextIncident)|
    ensures var t := Observed(s, b, order);
            var i := Transitions(s.rules, b, Openings(s.rules, b, order), Closings(s.rules, b, order), s.nextIncident)[j].incident;
            && i in t.incidents && Live(t, t.incidents[i].rule) && t.rules[t.incidents[i].rule].revision == t.incidents[i].revision
  {
    hide Evaluated, Decide, RuleAfter, IncidentsAfter, BatchMessages, DeliveriesAfter, Distinct, EffectValue;
    var opening, closing := Openings(s.rules, b, order), Closings(s.rules, b, order);
    if j < |opening| {
      OpeningInOrder(s.rules, b, order, opening[j]);
      NewIncidents(s, b, opening, s.nextIncident + j);
      DecisionKeepsIdentity(s.rules, b, opening, s.nextIncident, opening[j]);
    } else {
      var id := closing[j - |opening|];
      OpeningInOrder(s.rules, b, order, id);
      DecisionKeepsIdentity(s.rules, b, opening, s.nextIncident, id);
      assert NamesOpen(s, id) && Named(s, s.rules[id].active.value);
      OldIncident(s, b, opening, s.rules[id].active.value);
    }
  }

  // A waiting delivery of a detached rule is canceled.
  lemma OldDelivery(s: State, b: Batch, messages: seq<Delivery>, d: nat)
    requires Safe(s) && d in s.deliveries
    ensures var after := DeliveriesAfter(s, b, messages);
            && d in after && after[d].incident == s.deliveries[d].incident
            && (Waiting(after[d]) ==> Waiting(s.deliveries[d]) && !Decide(s.rules, b, s.incidents[s.deliveries[d].incident].rule).Detaches?)
  {
    hide Evaluated;
  }

  lemma ObservedDelivery(s: State, b: Batch, order: seq<nat>, d: nat)
    requires Safe(s) && Covers(b, order) && d in Observed(s, b, order).deliveries
    ensures var t := Observed(s, b, order);
            d < t.nextDelivery && t.deliveries[d].incident in t.incidents && (Waiting(t.deliveries[d]) ==> CurrentDelivery(t, d))
  {
    hide Evaluated, Decide, RuleAfter, IncidentsAfter, Transitions, Distinct, EffectValue, CanceledFor, Messages;
    var opening, closing := Openings(s.rules, b, order), Closings(s.rules, b, order);
    var transitions := Transitions(s.rules, b, opening, closing, s.nextIncident);
    var messages := BatchMessages(s, b, opening, closing);
    if d in s.deliveries {
      var i := s.deliveries[d].incident;
      OldIncident(s, b, opening, i);
      OldDelivery(s, b, messages, d);
      if Waiting(s.deliveries[d]) {
        assert CurrentDelivery(s, d);
        OpeningInOrder(s.rules, b, order, s.incidents[i].rule);
        DecisionKeepsIdentity(s.rules, b, opening, s.nextIncident, s.incidents[i].rule);
      }
    } else {
      assert s.nextDelivery <= d < s.nextDelivery + |messages| by { assert CanceledFor(s.deliveries, s.incidents, DetachedSet(s.rules, b)).Keys == s.deliveries.Keys by { CanceledKeys(s, b); } }
      MessageSource(s.rules, s.destinations, transitions, b.now, d - s.nextDelivery);
      var j :| 0 <= j < |transitions| && transitions[j].incident == messages[d - s.nextDelivery].incident;
      TransitionIncident(s, b, order, j);
    }
  }

  lemma CanceledKeys(s: State, b: Batch)
    ensures CanceledFor(s.deliveries, s.incidents, DetachedSet(s.rules, b)).Keys == s.deliveries.Keys
  {
  }

  lemma ObservedKeepsSafe(s: State, b: Batch, order: seq<nat>)
    requires Safe(s) && Covers(b, order)
    ensures Safe(Observed(s, b, order))
  {
    var t := Observed(s, b, order);
    forall i | i in t.incidents { ObservedIncident(s, b, order, i); }
    forall id | id in t.rules && !t.rules[id].deleted ensures NamesOpen(t, id) {
      DecisionKeepsIdentity(s.rules, b, Openings(s.rules, b, order), s.nextIncident, id);
      ObservedRule(s, b, order, id);
    }
    forall d | d in t.deliveries { ObservedDelivery(s, b, order, d); }
  }

  // The two consistency checks before an incident closes always succeed: each closing rule names its own
  // open incident, under its revision, and no two name the same one.
  lemma ClosingChecksHold(s: State, b: Batch, id: nat)
    requires Safe(s) && Closing(s.rules, b, id)
    ensures s.rules[id].active.Some?
    ensures var incidents := ClosedForConfiguration(s.incidents, ActiveIncidents(s.rules, DetachedSet(s.rules, b)), b.now);
            var i := s.rules[id].active.value;
            i in incidents && incidents[i].closedAt.None? && incidents[i].rule == id && incidents[i].revision == s.rules[id].revision
  {
    hide ActiveIncidents, DetachedSet;
    assert NamesOpen(s, id);
    DetachedIncident(s, b, s.rules[id].active.value);
    assert Named(s, s.rules[id].active.value);
  }

  lemma ClosingIncidentsDiffer(s: State, b: Batch, a: nat, c: nat)
    requires Safe(s) && Closing(s.rules, b, a) && Closing(s.rules, b, c) && a != c
    ensures s.rules[a].active != s.rules[c].active
  {
    ClosingChecksHold(s, b, a);
    ClosingChecksHold(s, b, c);
  }

  // ---- Configuration ----------------------------------------------------------------------------------------

  // Replacing the rules of a set by rules that name no incident, under other revisions or deleted.
  lemma ReplacedKeepsSafe(s: State, gone: set<nat>, rules: map<nat, Rule>, now: int)
    requires Safe(s) && rules.Keys >= s.rules.Keys
    requires forall id | id in s.rules && id !in gone :: rules[id] == s.rules[id]
    requires forall id | id in rules && (id in gone || id !in s.rules) :: rules[id].deleted || rules[id].active.None?
    requires forall id | id in gone :: Live(s, id)
    ensures Safe(ConfigurationChange(s, gone, now).(rules := rules))
  {
    var t := ConfigurationChange(s, gone, now).(rules := rules);
    forall i | i in t.incidents && t.incidents[i].closedAt.None? ensures Named(t, i) {
      assert Named(s, i);
      var id := s.incidents[i].rule;
      assert id in gone ==> i in ActiveIncidents(s.rules, gone);
    }
    forall id | id in t.rules && !t.rules[id].deleted ensures NamesOpen(t, id) {
      if t.rules[id].active.Some? {
        assert NamesOpen(s, id);
        var i := s.rules[id].active.value;
        assert i !in ActiveIncidents(s.rules, gone);
      }
    }
    forall d | d in t.deliveries && Waiting(t.deliveries[d]) ensures CurrentDelivery(t, d) {
      assert CurrentDelivery(s, d);
    }
  }

  lemma NewRuleKeepsSafe(s: State, id: nat, w: RuleWrite, now: int)
    requires Safe(s) && id !in s.rules
    ensures Safe(s.(rules := s.rules[id := Written(1, w)]))
  {
    ReplacedKeepsSafe(s, {}, s.rules[id := Written(1, w)], now);
  }

  lemma SavedKeepsSafe(s: State, id: nat, w: RuleWrite, now: int)
    requires Safe(s)
    ensures Safe(SavedRule(s, id, w, now))
  {
    hide ConfigurationChange, Safe;
    if id !in s.rules {
      NewRuleKeepsSafe(s, id, w, now);
    } else if !s.rules[id].deleted {
      ReplacedKeepsSafe(s, {id}, s.rules[id := Written(s.rules[id].revision + 1, w)], now);
    }
  }

  lemma DeletedKeepsSafe(s: State, id: nat, now: int)
    requires Safe(s)
    ensures Safe(DeletedRule(s, id, now))
  {
    if Live(s, id) {
      ReplacedKeepsSafe(s, {id}, s.rules[id := s.rules[id].(deleted := true)], now);
    }
  }

  lemma RotatorKeepsSafe(s: State, rotator: nat, now: int)
    requires Safe(s)
    ensures Safe(DeletedRotator(s, rotator, now))
  {
    var gone := RotatorRules(s.rules, rotator);
    ReplacedKeepsSafe(s, gone, map id | id in s.rules :: if id in gone then Detached(s.rules[id]) else s.rules[id], now);
  }

  lemma DestinationKeepsSafe(s: State, id: nat, enabled: bool, deleted: bool)
    requires Safe(s)
    ensures Safe(ChangedDestination(s, id, enabled, deleted))
  {
  }

  lemma ClaimKeepsSafe(s: State, claimed: set<nat>, token: nat, now: int)
    requires Safe(s) && forall d | d in claimed :: Eligible(Reclaimed(s.deliveries, now), now, d)
    ensures Safe(Claimed(s, claimed, token, now))
  {
  }

  lemma FinishKeepsSafe(s: State, id: nat, token: nat, status: DeliveryStatus, next: int)
    requires Safe(s)
    ensures Safe(Finished(s, id, token, status, next))
  {
  }

  lemma RetryKeepsSafe(s: State, id: nat, now: int)
    requires Safe(s)
    ensures Safe(Retried(s, id, now))
  {
  }

  lemma CleanupKeepsSafe(s: State, old_: set<nat>)
    requires Safe(s)
    ensures Safe(Cleaned(s, old_))
  {
    var t := Cleaned(s, old_);
    forall i | i in t.incidents && t.incidents[i].closedAt.None? ensures Named(t, i) { assert Named(s, i); }
    forall id | id in t.rules && !t.rules[id].deleted ensures NamesOpen(t, id) { assert NamesOpen(s, id); }
    forall d | d in t.deliveries && Waiting(t.deliveries[d]) ensures CurrentDelivery(t, d) { assert CurrentDelivery(s, d); }
  }
}
