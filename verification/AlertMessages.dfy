// What a batch of measurements leaves behind: which incidents open and close, and who is told what.
module AlertMessages {
  import opened Options
  import opened AlertRules
  import opened Alerts
  import opened AlertRuns

  // What was measured for a rule, unless the checker settings changed meanwhile.
  ghost predicate MeasuredValue(b: Batch, id: nat, value: real) {
    b.clean && id in b.inputs && b.inputs[id].value == Some(value)
  }

  lemma EffectIsMeasured(rules: map<nat, Rule>, b: Batch, id: nat)
    requires Opening(rules, b, id) || Closing(rules, b, id)
    ensures id in rules && id in b.inputs && MeasuredValue(b, id, EffectValue(rules, b, id))
  {
  }

  // A rule that opens names a new incident, with what was measured and when.
  lemma OpeningIsStored(s: State, b: Batch, order: seq<nat>, id: nat, value: real)
    requires Safe(s) && Covers(b, order) && Opening(s.rules, b, id) && MeasuredValue(b, id, value)
    ensures var t, rule := Observed(s, b, order), s.rules[id];
            && id in t.rules && t.rules[id].active.Some?
            && var i := t.rules[id].active.value;
            && i !in s.incidents && i in t.incidents
            && t.incidents[i] == Incident(id, rule.revision, rule.metric, rule.threshold, value, b.now, None, None, NoReason)
  {
    hide Evaluated, IncidentsAfter, BatchMessages, DeliveriesAfter, Distinct, EffectValue;
    var opening := Openings(s.rules, b, order);
    OpeningInOrder(s.rules, b, order, id);
    EffectIsMeasured(s.rules, b, id);
    DecisionKeepsIdentity(s.rules, b, opening, s.nextIncident, id);
    NewIncidents(s, b, opening, s.nextIncident + IndexOf(opening, id));
  }

  // A rule that recovers names no incident any more, and the one it named is closed with what was measured and when.
  lemma ClosingIsStored(s: State, b: Batch, order: seq<nat>, id: nat, value: real)
    requires Safe(s) && Covers(b, order) && Closing(s.rules, b, id) && MeasuredValue(b, id, value)
    ensures var t := Observed(s, b, order);
            && id in t.rules && t.rules[id].active.None? && s.rules[id].active.Some?
            && var i := s.rules[id].active.value;
            && i in s.incidents && i in t.incidents
            && t.incidents[i] == s.incidents[i].(closedAt := Some(b.now), reason := Recovered, closingValue := Some(value))
  {
    hide Evaluated, BatchMessages, DeliveriesAfter, Distinct, EffectValue, DetachedSet, ActiveIncidents;
    var opening := Openings(s.rules, b, order);
    OpeningInOrder(s.rules, b, order, id);
    EffectIsMeasured(s.rules, b, id);
    DecisionKeepsIdentity(s.rules, b, opening, s.nextIncident, id);
    ClosingChecksHold(s, b, id);
  }

  // ---- Messages -----------------------------------------------------------------------------------------------

  // The event and the incident of a rule that opens or recovers in the batch.
  ghost predicate Turns(s: State, b: Batch, t: State, id: nat, event: Event, incident: nat) {
    || (event == OpenedEvent && Opening(s.rules, b, id) && id in t.rules && t.rules[id].active == Some(incident))
    || (event == RecoveredEvent && Closing(s.rules, b, id) && id in s.rules && s.rules[id].active == Some(incident))
  }

  // A fresh message about that, to an enabled destination of the rule.
  ghost predicate Tells(s: State, b: Batch, t: State, id: nat, m: Delivery) {
    && Turns(s, b, t, id, m.event, m.incident) && id in s.rules && MeasuredValue(b, id, m.value)
    && m.destination in s.rules[id].destinations && m.destination in s.destinations
    && s.destinations[m.destination].enabled && !s.destinations[m.destination].deleted
    && m.status == Pending && m.token == 0 && m.attempts == 0 && m.nextAttempt == b.now && m.lastAttempt == None
  }

  lemma {:induction false} MessagesOfTransitions(rules: map<nat, Rule>, destinations: map<nat, Destination>, transitions: seq<Transition>, now: int, m: Delivery)
    ensures m in Messages(rules, destinations, transitions, now) <==>
            exists t :: t in transitions && IsMessage(rules, destinations, t, now, m)
  {
    if transitions != [] {
      hide IsMessage, MessagesTo;
      var n := |transitions| - 1;
      MessagesOfTransitions(rules, destinations, transitions[..n], now, m);
      assert transitions == transitions[..n] + [transitions[n]];
      MessageOf(rules, destinations, transitions[n], now, m);
    }
  }

  ghost predicate IsMessage(rules: map<nat, Rule>, destinations: map<nat, Destination>, t: Transition, now: int, m: Delivery) {
    && t.rule in rules && m.destination in rules[t.rule].destinations && m.destination in destinations
    && destinations[m.destination].enabled && !destinations[m.destination].deleted
    && m == Delivery(t.incident, m.destination, t.event, t.value, Pending, 0, 0, now, None)
  }

  lemma MessageOf(rules: map<nat, Rule>, destinations: map<nat, Destination>, t: Transition, now: int, m: Delivery)
    ensures m in MessagesTo(Recipients(destinations, if t.rule in rules then rules[t.rule].destinations else []), t, now) <==>
            IsMessage(rules, destinations, t, now, m)
  {
    var recipients := Recipients(destinations, if t.rule in rules then rules[t.rule].destinations else []);
    var messages := MessagesTo(recipients, t, now);
    if IsMessage(rules, destinations, t, now, m) {
      var k :| 0 <= k < |recipients| && recipients[k] == m.destination;
      assert messages[k] == m;
    }
  }

  // Transitions of different incidents make messages that differ in incident or destination.
  ghost predicate DifferentIncidents(transitions: seq<Transition>) {
    forall i, j | 0 <= i < j < |transitions| :: transitions[i].incident != transitions[j].incident
  }

  ghost predicate DifferentKeys(messages: seq<Delivery>) {
    forall i, j | 0 <= i < j < |messages| :: messages[i].incident != messages[j].incident || messages[i].destination != messages[j].destination
  }

  lemma {:induction false} MessagesDiffer(rules: map<nat, Rule>, destinations: map<nat, Destination>, transitions: seq<Transition>, now: int)
    requires DifferentIncidents(transitions)
    ensures DifferentKeys(Messages(rules, destinations, transitions, now))
  {
    if transitions != [] {
      var n := |transitions| - 1;
      MessagesDiffer(rules, destinations, transitions[..n], now);
      var before := Messages(rules, destinations, transitions[..n], now);
      forall m | m in before ensures m.incident != transitions[n].incident {
        MessagesOfTransitions(rules, destinations, transitions[..n], now, m);
        var t :| t in transitions[..n] && IsMessage(rules, destinations, t, now, m);
      }
    }
  }

  lemma InTransitions(rules: map<nat, Rule>, b: Batch, opening: seq<nat>, closing: seq<nat>, first: nat, tr: Transition)
    requires Distinct(opening)
    ensures tr in Transitions(rules, b, opening, closing, first) <==>
            tr.value == EffectValue(rules, b, tr.rule) &&
            if tr.event == OpenedEvent then tr.rule in opening && tr.incident == first + IndexOf(opening, tr.rule)
            else tr.rule in closing && tr.incident == ActiveOf(rules, tr.rule)
  {
    hide EffectValue, ActiveOf;
    var transitions := Transitions(rules, b, opening, closing, first);
    if tr in transitions {
      var k :| 0 <= k < |transitions| && transitions[k] == tr;
      if k < |opening| { IndexOfAt(opening, k); }
    }
    if tr.event == OpenedEvent && tr.rule in opening {
      assert transitions[IndexOf(opening, tr.rule)].rule == tr.rule;
    }
    if tr.event == RecoveredEvent && tr.rule in closing {
      var k :| 0 <= k < |closing| && closing[k] == tr.rule;
      assert transitions[|opening| + k].rule == tr.rule;
    }
  }

  lemma TransitionsTurn(s: State, b: Batch, order: seq<nat>, tr: Transition)
    requires Safe(s) && Covers(b, order)
    ensures tr in Transitions(s.rules, b, Openings(s.rules, b, order), Closings(s.rules, b, order), s.nextIncident) <==>
            Turns(s, b, Observed(s, b, order), tr.rule, tr.event, tr.incident) && MeasuredValue(b, tr.rule, tr.value)
  {
    hide Evaluated, Decide, IncidentsAfter, BatchMessages, DeliveriesAfter, EffectValue, Safe, Transitions, Opening, Closing, RuleAfter, Distinct;
    var opening, closing := Openings(s.rules, b, order), Closings(s.rules, b, order);
    OpeningsDistinct(s.rules, b, order);
    InTransitions(s.rules, b, opening, closing, s.nextIncident, tr);
    OpeningInOrder(s.rules, b, order, tr.rule);
    if Opening(s.rules, b, tr.rule) || Closing(s.rules, b, tr.rule) {
      EffectIsMeasured(s.rules, b, tr.rule);
      DecisionKeepsIdentity(s.rules, b, opening, s.nextIncident, tr.rule);
    }
  }

  lemma {:induction false} IndexOfAt(ids: seq<nat>, k: nat)
    requires Distinct(ids) && k < |ids|
    ensures IndexOf(ids, ids[k]) == k
  {
  }

  lemma TransitionsDiffer(s: State, b: Batch, order: seq<nat>)
    requires Safe(s) && Covers(b, order)
    ensures DifferentIncidents(Transitions(s.rules, b, Openings(s.rules, b, order), Closings(s.rules, b, order), s.nextIncident))
  {
    hide Evaluated, Decide, EffectValue, Safe, Opening, Closing;
    var opening, closing := Openings(s.rules, b, order), Closings(s.rules, b, order);
    OpeningsDistinct(s.rules, b, order);
    forall id | id in closing ensures s.rules[id].active.Some? && s.rules[id].active.value < s.nextIncident {
      ClosingChecksHold(s, b, id);
      NamedIsOld(s, b, id);
    }
    forall i, j | 0 <= i < j < |closing| ensures ActiveOf(s.rules, closing[i]) != ActiveOf(s.rules, closing[j]) {
      ClosingIncidentsDiffer(s, b, closing[i], closing[j]);
    }
  }

  lemma NamedIsOld(s: State, b: Batch, id: nat)
    requires Safe(s) && Closing(s.rules, b, id)
    ensures id in s.rules && s.rules[id].active.Some? && s.rules[id].active.value < s.nextIncident
  {
    hide DetachedSet, ActiveIncidents;
    ClosingChecksHold(s, b, id);
  }

  // After a batch: a message is new exactly if it tells an enabled destination of a rule that the rule's incident
  // opened or recovered, at what was measured.
  lemma ToldExactly(s: State, b: Batch, order: seq<nat>, m: Delivery)
    requires Safe(s) && Covers(b, order)
    ensures var t := Observed(s, b, order);
            (exists d :: d in t.deliveries && d !in s.deliveries && t.deliveries[d] == m) <==> exists id :: Tells(s, b, t, id, m)
  {
    hide Evaluated, Decide, Transitions, Messages, Openings, Closings, RulesAfter, IncidentsAfter, Safe, IsMessage;
    var t := Observed(s, b, order);
    var transitions := Transitions(s.rules, b, Openings(s.rules, b, order), Closings(s.rules, b, order), s.nextIncident);
    NewDeliveries(s, b, order);
    MessagesOfTransitions(s.rules, s.destinations, transitions, b.now, m);
    if m in BatchMessages(s, b, Openings(s.rules, b, order), Closings(s.rules, b, order)) {
      var tr :| tr in transitions && IsMessage(s.rules, s.destinations, tr, b.now, m);
      TransitionTells(s, b, order, tr, m);
      assert Tells(s, b, t, tr.rule, m);
    }
    if id :| Tells(s, b, t, id, m) {
      TransitionTells(s, b, order, Transition(id, m.incident, m.event, m.value), m);
    }
  }

  lemma TransitionTells(s: State, b: Batch, order: seq<nat>, tr: Transition, m: Delivery)
    requires Safe(s) && Covers(b, order)
    requires (tr.incident == m.incident && tr.event == m.event && tr.value == m.value) || IsMessage(s.rules, s.destinations, tr, b.now, m)
    ensures tr in Transitions(s.rules, b, Openings(s.rules, b, order), Closings(s.rules, b, order), s.nextIncident) && IsMessage(s.rules, s.destinations, tr, b.now, m)
            <==> Tells(s, b, Observed(s, b, order), tr.rule, m)
  {
    hide Evaluated, Decide, Transitions, Openings, Closings, Observed, Safe, Opening, Closing, MeasuredValue, Turns;
    TransitionsTurn(s, b, order, tr);
  }

  lemma NewDeliveries(s: State, b: Batch, order: seq<nat>)
    requires Safe(s) && Covers(b, order)
    ensures var t, messages := Observed(s, b, order), BatchMessages(s, b, Openings(s.rules, b, order), Closings(s.rules, b, order));
            && (forall d :: d in t.deliveries && d !in s.deliveries <==> s.nextDelivery <= d < s.nextDelivery + |messages|)
            && (forall d | s.nextDelivery <= d < s.nextDelivery + |messages| :: t.deliveries[d] == messages[d - s.nextDelivery])
            && (forall m | m in messages :: exists d :: d in t.deliveries && d !in s.deliveries && t.deliveries[d] == m)
  {
    hide Evaluated, Decide, BatchMessages, Openings, Closings, RulesAfter, IncidentsAfter, CanceledFor;
    CanceledKeys(s, b);
    var t, messages := Observed(s, b, order), BatchMessages(s, b, Openings(s.rules, b, order), Closings(s.rules, b, order));
    forall m | m in messages ensures exists d :: d in t.deliveries && d !in s.deliveries && t.deliveries[d] == m {
      var k :| 0 <= k < |messages| && messages[k] == m;
      assert t.deliveries[s.nextDelivery + k] == m;
    }
  }

  // And no destination is told twice about one incident.
  lemma ToldOnce(s: State, b: Batch, order: seq<nat>, d: nat, e: nat)
    requires Safe(s) && Covers(b, order) && d != e
    requires var t := Observed(s, b, order); d in t.deliveries && d !in s.deliveries && e in t.deliveries && e !in s.deliveries
    ensures var t := Observed(s, b, order);
            t.deliveries[d].incident != t.deliveries[e].incident || t.deliveries[d].destination != t.deliveries[e].destination
  {
    hide Evaluated, Decide, Transitions, Messages, Openings, Closings, RulesAfter, IncidentsAfter, DeliveriesAfter, Safe;
    NewDeliveries(s, b, order);
    TransitionsDiffer(s, b, order);
    MessagesDiffer(s.rules, s.destinations, Transitions(s.rules, b, Openings(s.rules, b, order), Closings(s.rules, b, order), s.nextIncident), b.now);
  }
}
