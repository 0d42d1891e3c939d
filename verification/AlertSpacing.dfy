// Over every run of the tables, two incidents of one rule revision open more than four minutes apart.
module AlertSpacing {
  import opened Options
  import opened AlertRules
  import opened AlertSustain
  import opened Alerts
  import opened AlertRuns
  import opened AlertOutbox

  ghost predicate SameRevision(a: Incident, b: Incident) {
    a.rule == b.rule && a.revision == b.revision
  }

  ghost predicate Known(s: State, i: nat)
    requires i in s.incidents
  {
    var incident := s.incidents[i];
    && i < s.nextIncident && incident.rule in s.rules && incident.revision <= s.rules[incident.rule].revision
    && (Live(s, incident.rule) && incident.revision == s.rules[incident.rule].revision ==>
          Spaced(s.rules[incident.rule], incident.openedAt))
  }

  ghost predicate Apart(s: State, i: nat, j: nat)
    requires i in s.incidents && j in s.incidents
  {
    i != j && SameRevision(s.incidents[i], s.incidents[j]) ==>
      s.incidents[i].openedAt - s.incidents[j].openedAt > 2 * SUSTAIN || s.incidents[j].openedAt - s.incidents[i].openedAt > 2 * SUSTAIN
  }

  ghost predicate SpacedOut(s: State) {
    && (forall i | i in s.incidents :: Known(s, i))
    && (forall i, j | i in s.incidents && j in s.incidents :: Apart(s, i, j))
  }

  // What the transaction leaves of an old incident, and what a new one is.
  lemma OldStays(s: State, b: Batch, opening: seq<nat>, i: nat)
    requires i in s.incidents && i < s.nextIncident && forall id | id in opening :: id in s.rules
    ensures var after := IncidentsAfter(s, b, opening);
            i in after && SameRevision(after[i], s.incidents[i]) && after[i].openedAt == s.incidents[i].openedAt
  {
    hide Decide, ActiveIncidents, DetachedSet, Closing;
  }

  lemma OldKnown(s: State, b: Batch, order: seq<nat>, i: nat)
    requires Safe(s) && SpacedOut(s) && Covers(b, order) && i in s.incidents
    ensures i in Observed(s, b, order).incidents && Known(Observed(s, b, order), i)
  {
    hide Evaluated, IncidentsAfter, BatchMessages, DeliveriesAfter, Distinct, EffectValue, Safe;
    var opening := Openings(s.rules, b, order);
    var id := s.incidents[i].rule;
    assert Known(s, i);
    OldStays(s, b, opening, i);
    OpeningInOrder(s.rules, b, order, id);
    DecisionKeepsIdentity(s.rules, b, opening, s.nextIncident, id);
    var decision := Decide(s.rules, b, id);
    if decision.Judged? && s.incidents[i].revision == s.rules[id].revision {
      EvaluationKeepsSpacing(s.rules[id], if b.clean then b.inputs[id].value else None, b.now,
                             if decision.verdict.effect.Opens? then s.nextIncident + IndexOf(opening, id) else 0, s.incidents[i].openedAt);
    }
  }

  lemma NewKnown(s: State, b: Batch, order: seq<nat>, i: nat)
    requires Safe(s) && SpacedOut(s) && Covers(b, order) && i in Observed(s, b, order).incidents && i !in s.incidents
    ensures Known(Observed(s, b, order), i)
  {
    hide Evaluated, IncidentsAfter, BatchMessages, DeliveriesAfter, Distinct, EffectValue;
    var opening := Openings(s.rules, b, order);
    NewIncidents(s, b, opening, i);
    var id := opening[i - s.nextIncident];
    OpeningInOrder(s.rules, b, order, id);
    DecisionKeepsIdentity(s.rules, b, opening, s.nextIncident, id);
    OpeningIsSpaced(s.rules[id], if b.clean then b.inputs[id].value else None, b.now, s.nextIncident + IndexOf(opening, id));
  }

  // A new incident opens far after every earlier one of its revision.
  lemma NewApart(s: State, b: Batch, order: seq<nat>, i: nat, j: nat)
    requires Safe(s) && SpacedOut(s) && Covers(b, order)
    requires i in Observed(s, b, order).incidents && i !in s.incidents && j in s.incidents && j in Observed(s, b, order).incidents
    ensures SameRevision(Observed(s, b, order).incidents[i], Observed(s, b, order).incidents[j]) ==>
            Observed(s, b, order).incidents[i].openedAt - Observed(s, b, order).incidents[j].openedAt > 2 * SUSTAIN
  {
    hide Evaluated, IncidentsAfter, BatchMessages, DeliveriesAfter, Distinct, EffectValue;
    var opening := Openings(s.rules, b, order);
    NewIncidents(s, b, opening, i);
    OldStays(s, b, opening, j);
    var id := opening[i - s.nextIncident];
    OpeningInOrder(s.rules, b, order, id);
    assert Known(s, j);
    if s.incidents[j].rule == id && s.incidents[j].revision == s.rules[id].revision {
      EvaluationKeepsSpacing(s.rules[id], if b.clean then b.inputs[id].value else None, b.now, 0, s.incidents[j].openedAt);
    }
  }

  lemma NewDistinct(s: State, b: Batch, order: seq<nat>, i: nat, j: nat)
    requires Safe(s) && Covers(b, order) && i != j
    requires i in Observed(s, b, order).incidents && i !in s.incidents && j in Observed(s, b, order).incidents && j !in s.incidents
    ensures Observed(s, b, order).incidents[i].rule != Observed(s, b, order).incidents[j].rule
  {
    hide Evaluated, Decide, IncidentsAfter, RulesAfter, BatchMessages, DeliveriesAfter, EffectValue;
    var opening := Openings(s.rules, b, order);
    OpeningsDistinct(s.rules, b, order);
    NewIncidents(s, b, opening, i);
    NewIncidents(s, b, opening, j);
  }

  lemma ObservedApart(s: State, b: Batch, order: seq<nat>, i: nat, j: nat)
    requires Safe(s) && SpacedOut(s) && Covers(b, order)
    requires i in Observed(s, b, order).incidents && j in Observed(s, b, order).incidents
    ensures Apart(Observed(s, b, order), i, j)
  {
    hide Observed, Safe;
    if i in s.incidents && j in s.incidents {
      assert Known(s, i) && Known(s, j) && Apart(s, i, j);
      ObservedOld(s, b, order, i);
      ObservedOld(s, b, order, j);
    } else if i in s.incidents {
      NewApart(s, b, order, j, i);
    } else if j in s.incidents {
      NewApart(s, b, order, i, j);
    } else if i != j {
      NewDistinct(s, b, order, i, j);
    }
  }

  lemma ObservedOld(s: State, b: Batch, order: seq<nat>, i: nat)
    requires SpacedOut(s) && Covers(b, order) && i in s.incidents
    ensures var after := Observed(s, b, order).incidents;
            i in after && SameRevision(after[i], s.incidents[i]) && after[i].openedAt == s.incidents[i].openedAt
  {
    hide IncidentsAfter, RulesAfter, BatchMessages, DeliveriesAfter;
    assert Known(s, i);
    OldStays(s, b, Openings(s.rules, b, order), i);
  }

  lemma ObservedKeepsSpaced(s: State, b: Batch, order: seq<nat>)
    requires Safe(s) && SpacedOut(s) && Covers(b, order)
    ensures SpacedOut(Observed(s, b, order))
  {
    hide Observed, Safe;
    var t := Observed(s, b, order);
    forall i | i in t.incidents ensures Known(t, i) {
      if i in s.incidents { OldKnown(s, b, order, i); } else { NewKnown(s, b, order, i); }
    }
    forall i, j | i in t.incidents && j in t.incidents { ObservedApart(s, b, order, i, j); }
  }

  // Every other step opens nothing, and a rule it changes gets a revision that has no incidents yet.
  ghost predicate OpensNothing(s: State, t: State) {
    && s.nextIncident <= t.nextIncident
    && (forall i | i in t.incidents :: i in s.incidents && SameRevision(s.incidents[i], t.incidents[i]) && s.incidents[i].openedAt == t.incidents[i].openedAt)
    && (forall id | id in s.rules :: id in t.rules)
    && (forall id | id in s.rules :: t.rules[id] == s.rules[id] || t.rules[id].revision > s.rules[id].revision ||
          (t.rules[id].deleted && t.rules[id].revision == s.rules[id].revision))
  }

  lemma OpensNothingKeepsSpaced(s: State, t: State)
    requires SpacedOut(s) && OpensNothing(s, t)
    ensures SpacedOut(t)
  {
    forall i | i in t.incidents ensures Known(t, i) { assert Known(s, i); }
    forall i, j | i in t.incidents && j in t.incidents ensures Apart(t, i, j) { assert Apart(s, i, j); }
  }

  lemma StepKeepsSpaced(w: World, step: Step)
    requires Sound(w) && AlertOutbox.Legal(w, step) && SpacedOut(w.tables)
    ensures SpacedOut(AlertOutbox.Next(w, step).tables)
  {
    hide Safe, Observed, InOrder, Fenced, SpacedOut, Eligible;
    if step.Observe? {
      ObservedKeepsSpaced(w.tables, step.batch, step.order);
    } else {
      OpensNothingKeepsSpaced(w.tables, AlertOutbox.Next(w, step).tables);
    }
  }

  lemma {:induction false} RunKeepsSpaced(w: World, steps: seq<Step>)
    requires Sound(w) && AlertOutbox.LegalRun(w, steps) && SpacedOut(w.tables)
    ensures SpacedOut(AlertOutbox.After(w, steps).tables)
    decreases |steps|
  {
    if steps != [] {
      StepKeepsSpaced(w, steps[0]);
      StepKeepsSound(w, steps[0]);
      RunKeepsSpaced(AlertOutbox.Next(w, steps[0]), steps[1..]);
    }
  }

  lemma IncidentsOpenFarApart(w: World, i: nat, j: nat)
    requires Reachable(w) && i in w.tables.incidents && j in w.tables.incidents && i != j
    requires w.tables.incidents[i].rule == w.tables.incidents[j].rule && w.tables.incidents[i].revision == w.tables.incidents[j].revision
    ensures w.tables.incidents[i].openedAt - w.tables.incidents[j].openedAt > 2 * SUSTAIN ||
            w.tables.incidents[j].openedAt - w.tables.incidents[i].openedAt > 2 * SUSTAIN
  {
    var steps :| AlertOutbox.LegalRun(START, steps) && AlertOutbox.After(START, steps) == w;
    RunKeepsSpaced(START, steps);
    assert Apart(w.tables, i, j);
  }
}
