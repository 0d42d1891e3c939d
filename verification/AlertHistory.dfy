// The rows of a rule in any run of the tables are the history of its evaluations under one revision.
module AlertHistory {
  import opened Options
  import opened AlertRules
  import opened AlertSustain
  import opened Alerts
  import opened AlertRuns
  import opened AlertOutbox

  ghost function BatchValue(b: Batch, id: nat): Option<real> {
    if b.clean && id in b.inputs then b.inputs[id].value else None
  }

  ghost function IncidentFor(s: State, b: Batch, order: seq<nat>, id: nat): nat {
    if id in Openings(s.rules, b, order) then s.nextIncident + IndexOf(Openings(s.rules, b, order), id) else 0
  }

  // The evaluations of one rule that a run of the tables makes.
  ghost function Inputs(w: World, steps: seq<AlertOutbox.Step>, id: nat): seq<Input>
    requires AlertOutbox.LegalRun(w, steps)
    decreases |steps|
  {
    if steps == [] then []
    else
      (if steps[0].Observe? && Decide(w.tables.rules, steps[0].batch, id).Judged?
       then [Input(steps[0].batch.now, BatchValue(steps[0].batch, id), IncidentFor(w.tables, steps[0].batch, steps[0].order, id))] else []) +
      Inputs(AlertOutbox.Next(w, steps[0]), steps[1..], id)
  }

  ghost predicate Kept(a: State, b: State, id: nat) {
    id in a.rules && id in b.rules && a.rules[id].revision == b.rules[id].revision && !b.rules[id].deleted
  }

  lemma BatchMovesOn(w: World, step: AlertOutbox.Step, id: nat)
    requires step.Observe? && AlertOutbox.Legal(w, step) && id in w.tables.rules
    ensures var t := AlertOutbox.Next(w, step).tables;
            && id in t.rules && w.tables.rules[id].revision <= t.rules[id].revision
            && w.tables.rules[id].deleted == t.rules[id].deleted
            && (w.tables.rules[id].revision == t.rules[id].revision ==>
                  t.rules[id] == if Decide(w.tables.rules, step.batch, id).Judged? then
                                   Settled(Evaluated(w.tables.rules[id], BatchValue(step.batch, id), step.batch.now),
                                           IncidentFor(w.tables, step.batch, step.order, id))
                                 else w.tables.rules[id])
  {
    hide Evaluated, IncidentsAfter, BatchMessages, DeliveriesAfter, Distinct;
    OpeningInOrder(w.tables.rules, step.batch, step.order, id);
    DecisionKeepsIdentity(w.tables.rules, step.batch, Openings(w.tables.rules, step.batch, step.order), w.tables.nextIncident, id);
  }

  lemma RuleMovesOn(w: World, step: AlertOutbox.Step, id: nat)
    requires Sound(w) && AlertOutbox.Legal(w, step) && id in w.tables.rules
    ensures var t := AlertOutbox.Next(w, step).tables;
            && id in t.rules && w.tables.rules[id].revision <= t.rules[id].revision
            && (w.tables.rules[id].deleted ==> t.rules[id].deleted)
            && (Kept(w.tables, t, id) ==>
                  if step.Observe? && Decide(w.tables.rules, step.batch, id).Judged? then
                    t.rules[id] == Settled(Evaluated(w.tables.rules[id], BatchValue(step.batch, id), step.batch.now),
                                           IncidentFor(w.tables, step.batch, step.order, id))
                  else t.rules[id] == w.tables.rules[id])
  {
    hide Evaluated, Safe, InOrder, Fenced, IncidentsAfter, BatchMessages, DeliveriesAfter, Distinct, ConfigurationChange, Eligible;
    if step.Observe? {
      hide Settled, Decide, Openings, IncidentFor;
      BatchMovesOn(w, step, id);
    }
  }

  lemma {:induction false} RevisionsOnlyGrow(w: World, steps: seq<AlertOutbox.Step>, id: nat)
    requires Sound(w) && AlertOutbox.LegalRun(w, steps) && id in w.tables.rules
    ensures var t := AlertOutbox.After(w, steps).tables;
            id in t.rules && w.tables.rules[id].revision <= t.rules[id].revision && (w.tables.rules[id].deleted ==> t.rules[id].deleted)
    decreases |steps|
  {
    if steps != [] {
      RuleMovesOn(w, steps[0], id);
      StepKeepsSound(w, steps[0]);
      RevisionsOnlyGrow(AlertOutbox.Next(w, steps[0]), steps[1..], id);
    }
  }

  lemma {:induction false} FollowsHistory(w: World, steps: seq<AlertOutbox.Step>, id: nat, h: History)
    requires Sound(w) && AlertOutbox.LegalRun(w, steps) && id in w.tables.rules && h.rule == w.tables.rules[id]
    requires Kept(w.tables, AlertOutbox.After(w, steps).tables, id)
    ensures AlertSustain.After(h, Inputs(w, steps, id)).rule == AlertOutbox.After(w, steps).tables.rules[id]
    decreases |steps|
  {
    hide Sound, Evaluated;
    if steps != [] {
      var next := AlertOutbox.Next(w, steps[0]);
      RuleMovesOn(w, steps[0], id);
      StepKeepsSound(w, steps[0]);
      RevisionsOnlyGrow(next, steps[1..], id);
      if steps[0].Observe? && Decide(w.tables.rules, steps[0].batch, id).Judged? {
        var input := Input(steps[0].batch.now, BatchValue(steps[0].batch, id), IncidentFor(w.tables, steps[0].batch, steps[0].order, id));
        assert Inputs(w, steps, id)[1..] == Inputs(next, steps[1..], id);
        FollowsHistory(next, steps[1..], id, AlertSustain.Step(h, input));
      } else {
        assert Inputs(w, steps, id) == Inputs(next, steps[1..], id);
        FollowsHistory(next, steps[1..], id, h);
      }
    }
  }

  // The batch has an observation of the rule as it stands, later than its last evaluation.
  ghost predicate Measured(rules: map<nat, Rule>, b: Batch, id: nat) {
    && id in rules && id in b.inputs && rules[id].enabled && !rules[id].deleted
    && rules[id].revision == b.inputs[id].revision && !b.inputs[id].missingRotator
    && (rules[id].lastEvaluated.None? || b.now > rules[id].lastEvaluated.value)
  }

  // In every run after a rule was saved, a measurement opens an incident if and only if none is open and it completes
  // a breach that was sustained under the rule's revision, and closes the open one if and only if it completes a
  // recovery that was.
  lemma IncidentsFollowSustainedRuns(w: World, steps: seq<AlertOutbox.Step>, b: Batch, id: nat)
    requires AlertOutbox.Reachable(w) && AlertOutbox.LegalRun(w, steps)
    requires id in w.tables.rules && Fresh(History(w.tables.rules[id], [], []))
    requires Kept(w.tables, AlertOutbox.After(w, steps).tables, id)
    ensures var rules := AlertOutbox.After(w, steps).tables.rules;
            var log := AlertSustain.After(History(w.tables.rules[id], [], []), Inputs(w, steps, id)).log + [Entry(b.now, BatchValue(b, id))];
            && (Opening(rules, b, id) <==>
                  Measured(rules, b, id) && rules[id].active.None? && exists i: nat :: LongStretch(rules[id], log, i, true))
            && (Closing(rules, b, id) <==>
                  Measured(rules, b, id) && rules[id].active.Some? && exists i: nat :: LongStretch(rules[id], log, i, false))
            && (Opening(rules, b, id) || Closing(rules, b, id) ==> BatchValue(b, id) == Some(EffectValue(rules, b, id)))
  {
    hide Sound, Evaluated, LongStretch, Kept, Fresh;
    AlertOutbox.ReachableIsSound(w);
    var start := History(w.tables.rules[id], [], []);
    FollowsHistory(w, steps, id, start);
    var rules := AlertOutbox.After(w, steps).tables.rules;
    if Measured(rules, b, id) {
      SustainedBothWays(start, Inputs(w, steps, id), Input(b.now, BatchValue(b, id), 0));
    }
  }
}
