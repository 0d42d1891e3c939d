// What changing or deleting rules, rotators and destinations does to open incidents and to messages under way.
module AlertChanges {
  import opened Options
  import opened AlertRules
  import opened AlertSustain
  import opened Alerts
  import opened AlertRuns
  import opened AlertHistory

  ghost predicate UnderWay(d: Delivery) {
    d.status == Pending || d.status == Processing
  }

  // The open incidents of some rules close as configuration changes, their messages under way are canceled and lose
  // their token, and everything else stays as it is.
  ghost predicate EndsFor(s: State, t: State, gone: set<nat>, now: int) {
    && t.incidents.Keys == s.incidents.Keys && t.deliveries.Keys == s.deliveries.Keys
    && (forall i | i in s.incidents ::
          t.incidents[i] == if s.incidents[i].closedAt.None? && s.incidents[i].rule in gone
                            then s.incidents[i].(closedAt := Some(now), reason := ConfigurationChanged) else s.incidents[i])
    && (forall d | d in s.deliveries && s.deliveries[d].incident in s.incidents ::
          t.deliveries[d] == if UnderWay(s.deliveries[d]) && s.incidents[s.deliveries[d].incident].rule in gone
                             then s.deliveries[d].(status := Canceled, token := 0) else s.deliveries[d])
  }

  // A set of rules names exactly its own open incidents.
  lemma OpenIsNamed(s: State, gone: set<nat>, i: nat)
    requires Safe(s) && (forall id | id in gone :: Live(s, id)) && i in s.incidents && s.incidents[i].closedAt.None?
    ensures i in ActiveIncidents(s.rules, gone) <==> s.incidents[i].rule in gone
  {
    assert Named(s, i);
    forall id | id in gone && s.rules[id].active == Some(i) ensures s.incidents[i].rule == id { assert NamesOpen(s, id); }
  }

  lemma ChangeEnds(s: State, gone: set<nat>, now: int)
    requires Safe(s) && forall id | id in gone :: Live(s, id)
    ensures EndsFor(s, ConfigurationChange(s, gone, now), gone, now)
  {
    hide Safe, ActiveIncidents, Live;
    forall i | i in s.incidents && s.incidents[i].closedAt.None? { OpenIsNamed(s, gone, i); }
  }

  ghost predicate OtherRulesStay(s: State, t: State, gone: set<nat>) {
    forall id | id !in gone :: (id in s.rules <==> id in t.rules) && (id in s.rules ==> t.rules[id] == s.rules[id])
  }

  // A saved rule says what was written, under its next revision, and knows nothing of what was measured before.
  lemma SaveStartsAfresh(s: State, id: nat, w: RuleWrite, now: int)
    requires Safe(s) && (id in s.rules ==> !s.rules[id].deleted)
    ensures var t := SavedRule(s, id, w, now);
            && OtherRulesStay(s, t, {id}) && id in t.rules && Fresh(History(t.rules[id], [], []))
            && t.rules[id].revision == (if id in s.rules then s.rules[id].revision + 1 else 1) && !t.rules[id].deleted
            && t.rules[id].enabled == w.enabled && t.rules[id].metric == w.metric && t.rules[id].threshold == w.threshold
            && t.rules[id].rotator == w.rotator && t.rules[id].destinations == w.destinations
            && t.rules[id].status == (if w.enabled then Unknown else Disabled)
            && (id in s.rules ==> EndsFor(s, t, {id}, now))
            && (id !in s.rules ==> t.incidents == s.incidents && t.deliveries == s.deliveries)
  {
    hide Safe;
    if id in s.rules { ChangeEnds(s, {id}, now); }
  }

  // A deleted rule ends everything of it, once; the rule row stays, marked as deleted.
  lemma DeleteEnds(s: State, id: nat, now: int)
    requires Safe(s)
    ensures var t := DeletedRule(s, id, now);
            if id in s.rules && !s.rules[id].deleted then
              OtherRulesStay(s, t, {id}) && id in t.rules && t.rules[id].deleted && EndsFor(s, t, {id}, now)
            else t == s
  {
    hide Safe;
    if Live(s, id) { ChangeEnds(s, {id}, now); }
  }

  // Deleting a rotator disables exactly the rules that measure it, and ends everything of them.
  lemma RotatorEnds(s: State, rotator: nat, now: int)
    requires Safe(s)
    ensures var t, gone := DeletedRotator(s, rotator, now), set id | id in s.rules && !s.rules[id].deleted && s.rules[id].rotator == Some(rotator);
            && OtherRulesStay(s, t, gone) && EndsFor(s, t, gone, now)
            && forall id | id in gone :: id in t.rules && !t.rules[id].enabled && t.rules[id].revision == s.rules[id].revision + 1 &&
                                         t.rules[id].active.None? && t.rules[id].breachSince.None? && t.rules[id].recoverySince.None?
  {
    hide Safe;
    var gone := RotatorRules(s.rules, rotator);
    assert gone == set id | id in s.rules && !s.rules[id].deleted && s.rules[id].rotator == Some(rotator);
    ChangeEnds(s, gone, now);
  }

  // Nothing is under way to a destination that was saved again or deleted, and nothing else changes.
  lemma DestinationEnds(s: State, id: nat, enabled: bool, deleted: bool)
    requires id in s.destinations && !s.destinations[id].deleted
    ensures var t := ChangedDestination(s, id, enabled, deleted);
            && t.rules == s.rules && t.incidents == s.incidents && t.destinations == s.destinations[id := Destination(enabled, deleted)]
            && t.deliveries.Keys == s.deliveries.Keys
            && forall d | d in s.deliveries ::
                 t.deliveries[d] == if UnderWay(s.deliveries[d]) && s.deliveries[d].destination == id
                                    then s.deliveries[d].(status := Canceled, token := 0) else s.deliveries[d]
  {
  }

  // ---- Batches of measurements --------------------------------------------------------------------------------

  // The rotator that the rule measures was gone when the batch measured it.
  ghost predicate LostRotator(rules: map<nat, Rule>, b: Batch, id: nat) {
    && id in rules && id in b.inputs && rules[id].enabled && !rules[id].deleted
    && rules[id].revision == b.inputs[id].revision && b.inputs[id].missingRotator
  }

  // A rule that lost its rotator is disabled under a new revision; one that was not measured is left alone.
  lemma BatchRules(s: State, b: Batch, order: seq<nat>, id: nat)
    requires Safe(s) && Covers(b, order) && id in s.rules
    ensures var t := Observed(s, b, order);
            && id in t.rules
            && (LostRotator(s.rules, b, id) ==>
                  && !t.rules[id].enabled && t.rules[id].status == Disabled && t.rules[id].revision == s.rules[id].revision + 1
                  && t.rules[id].active.None? && t.rules[id].breachSince.None? && t.rules[id].recoverySince.None?)
            && (!LostRotator(s.rules, b, id) && !Measured(s.rules, b, id) ==> t.rules[id] == s.rules[id])
  {
    hide Evaluated, IncidentsAfter, BatchMessages, DeliveriesAfter, Safe;
  }

  // An incident that was there before closes as a configuration change if its rule lost the rotator, recovers if it
  // is the one its recovering rule names, and else stays as it is.
  lemma BatchIncidents(s: State, b: Batch, order: seq<nat>, i: nat)
    requires Safe(s) && Covers(b, order) && i in s.incidents
    ensures var t, incident := Observed(s, b, order), s.incidents[i];
            && i in t.incidents
            && (incident.closedAt.None? && LostRotator(s.rules, b, incident.rule) ==>
                  t.incidents[i] == incident.(closedAt := Some(b.now), reason := ConfigurationChanged))
            && (incident.closedAt.Some? || (!LostRotator(s.rules, b, incident.rule) && !Closing(s.rules, b, incident.rule)) ==>
                  t.incidents[i] == incident)
            && (incident.closedAt.None? && Closing(s.rules, b, incident.rule) ==>
                  t.incidents[i].closedAt == Some(b.now) && t.incidents[i].reason == Recovered)
  {
    hide Evaluated, BatchMessages, DeliveriesAfter, DetachedSet, ActiveIncidents, EffectValue, RulesAfter;
    var id := s.incidents[i].rule;
    if s.incidents[i].closedAt.None? {
      assert Named(s, i);
      DetachedIncident(s, b, i);
    }
  }

  // A message that was there before is canceled if it is under way and its rule lost the rotator, and else stays.
  lemma BatchDeliveries(s: State, b: Batch, order: seq<nat>, d: nat)
    requires Safe(s) && Covers(b, order) && d in s.deliveries
    ensures var t := Observed(s, b, order);
            && d in t.deliveries
            && t.deliveries[d] == if UnderWay(s.deliveries[d]) && LostRotator(s.rules, b, s.incidents[s.deliveries[d].incident].rule)
                                  then s.deliveries[d].(status := Canceled, token := 0) else s.deliveries[d]
  {
    hide Evaluated, BatchMessages, IncidentsAfter, RulesAfter;
  }
}
