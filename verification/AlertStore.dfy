// The alert transactions on their tables, as the database code runs them.
module AlertStore {
  import opened Options
  import opened AlertRules
  import opened Alerts
  import opened AlertRuns
  import opened Ids

  // ---- Evaluating a batch -----------------------------------------------------------------------------------

  // A rule as the first pass leaves it: evaluated, or detached from a rotator that is gone.
  function Prepared(rules: map<nat, Rule>, b: Batch, id: nat): Rule
    requires id in rules
  {
    match Decide(rules, b, id)
    case Skipped => rules[id]
    case Detaches => Detached(rules[id]).(lastAttempt := Later(rules[id].lastAttempt, b.now))
    case Judged(verdict) => verdict.rule
  }

  method DecideRule(rules: map<nat, Rule>, b: Batch, id: nat) returns (decision: Decision)
    ensures decision == Decide(rules, b, id)
  {
    if id !in rules || id !in b.inputs || !rules[id].enabled || rules[id].deleted { return Skipped; }
    var rule, input := rules[id], b.inputs[id];
    if rule.revision != input.revision { return Skipped; }
    if input.missingRotator { return Detaches; }
    if rule.lastEvaluated.Some? && b.now <= rule.lastEvaluated.value { return Skipped; }
    var after, effect := Evaluate(rule, if b.clean then input.value else None, b.now);
    return Judged(Verdict(after, effect));
  }

  // What the first pass collects: the rules to save, and those that open, close, or lost their rotator.
  datatype Pass = Pass(judged: map<nat, Rule>, opening: seq<nat>, closing: seq<nat>, gone: seq<nat>)

  ghost predicate Collected(rules: map<nat, Rule>, b: Batch, done: seq<nat>, p: Pass) {
    && p.opening == Openings(rules, b, done) && p.closing == Closings(rules, b, done)
    && (forall id :: id in p.gone <==> id in done && Decide(rules, b, id).Detaches?)
    && (forall id :: id in p.judged <==> id in done && !Decide(rules, b, id).Skipped?)
    && (forall id | id in p.judged :: id in rules && p.judged[id] == Prepared(rules, b, id))
  }

  lemma OneMore(rules: map<nat, Rule>, b: Batch, done: seq<nat>, id: nat)
    ensures Openings(rules, b, done + [id]) == Openings(rules, b, done) + (if Opening(rules, b, id) then [id] else [])
    ensures Closings(rules, b, done + [id]) == Closings(rules, b, done) + (if Closing(rules, b, id) then [id] else [])
    ensures !Decide(rules, b, id).Skipped? ==> id in rules
  {
    assert (done + [id])[..|done|] == done;
  }

  method Collect(rules: map<nat, Rule>, b: Batch, ghost done: seq<nat>, p: Pass, id: nat) returns (q: Pass)
    requires Collected(rules, b, done, p) && id !in done
    ensures Collected(rules, b, done + [id], q)
    ensures q.gone == p.gone || q.gone == p.gone + [id]
  {
    hide Evaluated, Decide, Openings, Closings, Detached;
    OneMore(rules, b, done, id);
    var decision := DecideRule(rules, b, id);
    q := p;
    match decision {
      case Skipped =>
      case Detaches =>
        q := p.(judged := p.judged[id := Detached(rules[id]).(lastAttempt := Later(rules[id].lastAttempt, b.now))], gone := p.gone + [id]);
      case Judged(verdict) =>
        q := p.(judged := p.judged[id := verdict.rule],
                opening := if verdict.effect.Opens? then p.opening + [id] else p.opening,
                closing := if verdict.effect.Closes? then p.closing + [id] else p.closing);
    }
  }

  method JudgeRules(rules: map<nat, Rule>, b: Batch, order: seq<nat>) returns (p: Pass)
    requires Covers(b, order)
    ensures Collected(rules, b, order, p) && Distinct(p.gone)
  {
    p := Pass(map[], [], [], []);
    for k := 0 to |order|
      invariant Collected(rules, b, order[..k], p) && Distinct(p.gone)
      invariant forall id | id in p.gone :: id in order[..k]
    {
      assert order[..k + 1] == order[..k] + [order[k]] && order[k] !in order[..k];
      p := Collect(rules, b, order[..k], p, order[k]);
    }
    assert order[..|order|] == order;
  }

  // ---- Closing for a configuration change ---------------------------------------------------------------------

  method CloseAlertForConfiguration(incidents: map<nat, Incident>, deliveries: map<nat, Delivery>, id: nat, active: Option<nat>, now: int)
    returns (closed: map<nat, Incident>, canceled: map<nat, Delivery>)
    ensures closed == ClosedForConfiguration(incidents, if active.Some? then {active.value} else {}, now)
    ensures canceled == CanceledFor(deliveries, incidents, {id})
  {
    closed := incidents;
    if active.Some? && active.value in incidents && incidents[active.value].closedAt.None? {
      closed := closed[active.value := incidents[active.value].(closedAt := Some(now), reason := ConfigurationChanged)];
    }
    canceled := CanceledFor(deliveries, incidents, {id});
  }

  lemma ClosedTwice(incidents: map<nat, Incident>, a: set<nat>, c: set<nat>, now: int)
    ensures ClosedForConfiguration(ClosedForConfiguration(incidents, a, now), c, now) == ClosedForConfiguration(incidents, a + c, now)
  {
  }

  lemma CanceledTwice(deliveries: map<nat, Delivery>, incidents: map<nat, Incident>, a: set<nat>, ids: set<nat>, c: set<nat>, now: int)
    ensures CanceledFor(CanceledFor(deliveries, incidents, a), ClosedForConfiguration(incidents, ids, now), c) ==
            CanceledFor(deliveries, incidents, a + c)
  {
  }

  lemma OneMoreActive(rules: map<nat, Rule>, gone: set<nat>, id: nat)
    requires id in rules
    ensures ActiveIncidents(rules, gone + {id}) ==
            ActiveIncidents(rules, gone) + (if rules[id].active.Some? then {rules[id].active.value} else {})
  {
    var more := if rules[id].active.Some? then {rules[id].active.value} else {};
    forall i ensures i in ActiveIncidents(rules, gone + {id}) <==> i in ActiveIncidents(rules, gone) + more {
      if i in ActiveIncidents(rules, gone) {
        var k :| k in gone && k in rules && rules[k].active == Some(i);
        assert k in gone + {id};
      }
      if i in more {
        assert id in gone + {id} && rules[id].active == Some(i);
      }
    }
  }

  lemma NothingClosed(rules: map<nat, Rule>, incidents: map<nat, Incident>, deliveries: map<nat, Delivery>, now: int)
    ensures ClosedForConfiguration(incidents, ActiveIncidents(rules, {}), now) == incidents
    ensures CanceledFor(deliveries, incidents, {}) == deliveries
  {
    assert ActiveIncidents(rules, {}) == {};
  }

  // One rule after the other, which comes to the same as all at once.
  method CloseRules(rules: map<nat, Rule>, incidents: map<nat, Incident>, deliveries: map<nat, Delivery>, gone: seq<nat>, now: int)
    returns (closed: map<nat, Incident>, canceled: map<nat, Delivery>)
    requires forall id | id in gone :: id in rules
    ensures closed == ClosedForConfiguration(incidents, ActiveIncidents(rules, Elements(gone)), now)
    ensures canceled == CanceledFor(deliveries, incidents, Elements(gone))
  {
    hide ActiveIncidents, ClosedForConfiguration, CanceledFor;
    closed, canceled := incidents, deliveries;
    assert Elements(gone[..0]) == {};
    NothingClosed(rules, incidents, deliveries, now);
    for k := 0 to |gone|
      invariant closed == ClosedForConfiguration(incidents, ActiveIncidents(rules, Elements(gone[..k])), now)
      invariant canceled == CanceledFor(deliveries, incidents, Elements(gone[..k]))
    {
      var id := gone[k];
      ghost var before := Elements(gone[..k]);
      assert Elements(gone[..k + 1]) == before + {id} by { assert gone[..k + 1] == gone[..k] + [id]; }
      OneMoreActive(rules, before, id);
      ClosedTwice(incidents, ActiveIncidents(rules, before), if rules[id].active.Some? then {rules[id].active.value} else {}, now);
      CanceledTwice(deliveries, incidents, before, ActiveIncidents(rules, before), {id}, now);
      closed, canceled := CloseAlertForConfiguration(closed, canceled, id, rules[id].active, now);
    }
    assert gone[..|gone|] == gone;
  }

  // ---- Opening and recovering ---------------------------------------------------------------------------------

  // The judged rules once some openings and some recoveries have been carried out.
  ghost predicate CarriedOut(rules: map<nat, Rule>, b: Batch, opens: seq<nat>, closes: seq<nat>, first: nat, judged: map<nat, Rule>) {
    && (forall id | id in judged :: id in rules && !Decide(rules, b, id).Skipped?)
    && (forall id | id in judged :: judged[id] ==
          if id in opens then Prepared(rules, b, id).(active := Some(first + IndexOf(opens, id)), breachSince := None)
          else if id in closes then Prepared(rules, b, id).(active := None, recoverySince := None)
          else Prepared(rules, b, id))
  }

  lemma {:induction false} IndexOfPrefix(ids: seq<nat>, n: nat, id: nat)
    requires n < |ids| && Distinct(ids) && id in ids[..n + 1]
    ensures if id == ids[n] then id !in ids[..n] && IndexOf(ids[..n + 1], id) == n
            else id in ids[..n] && IndexOf(ids[..n + 1], id) == IndexOf(ids[..n], id)
  {
    var k :| 0 <= k < n + 1 && ids[..n + 1][k] == id;
    if id != ids[n] { assert ids[..n][k] == id; }
  }

  lemma OpensOneMore(rules: map<nat, Rule>, b: Batch, opening: seq<nat>, k: nat, first: nat, judged: map<nat, Rule>)
    requires k < |opening| && Distinct(opening) && opening[k] in judged
    requires CarriedOut(rules, b, opening[..k], [], first, judged)
    ensures CarriedOut(rules, b, opening[..k + 1], [], first,
                       judged[opening[k] := judged[opening[k]].(active := Some(first + k), breachSince := None)])
  {
    hide Decide, Prepared, Distinct;
    var settled := judged[opening[k] := judged[opening[k]].(active := Some(first + k), breachSince := None)];
    assert opening[..k + 1] == opening[..k] + [opening[k]];
    IndexOfPrefix(opening, k, opening[k]);
    forall id | id in settled
      ensures settled[id] == if id in opening[..k + 1] then Prepared(rules, b, id).(active := Some(first + IndexOf(opening[..k + 1], id)), breachSince := None)
                             else Prepared(rules, b, id)
    {
      if id in opening[..k] { IndexOfPrefix(opening, k, id); }
    }
  }

  lemma OpenedOneMore(rules: map<nat, Rule>, b: Batch, opening: seq<nat>, k: nat, first: nat)
    requires k < |opening| && forall id | id in opening :: id in rules
    ensures OpenedIncidents(rules, b, opening[..k + 1], first) ==
            OpenedIncidents(rules, b, opening[..k], first)[first + k := NewIncident(rules, b, opening[k])]
  {
    hide NewIncident;
  }

  lemma NothingOpened(rules: map<nat, Rule>, b: Batch, first: nat)
    ensures OpenedIncidents(rules, b, [], first) == map[]
  {
  }

  method OpenIncidents(rules: map<nat, Rule>, b: Batch, opening: seq<nat>, first: nat, incidents: map<nat, Incident>, judged: map<nat, Rule>)
    returns (after: map<nat, Incident>, settled: map<nat, Rule>)
    requires Distinct(opening) && forall id | id in opening :: id in rules && id in judged
    requires CarriedOut(rules, b, [], [], first, judged)
    ensures after == incidents + OpenedIncidents(rules, b, opening, first)
    ensures settled.Keys == judged.Keys && CarriedOut(rules, b, opening, [], first, settled)
  {
    hide CarriedOut, NewIncident, Distinct, OpenedIncidents;
    after, settled := incidents, judged;
    assert opening[..0] == [];
    NothingOpened(rules, b, first);
    for k := 0 to |opening|
      invariant after == incidents + OpenedIncidents(rules, b, opening[..k], first)
      invariant settled.Keys == judged.Keys && CarriedOut(rules, b, opening[..k], [], first, settled)
    {
      var id := opening[k];
      OpensOneMore(rules, b, opening, k, first, settled);
      OpenedOneMore(rules, b, opening, k, first);
      after := after[first + k := NewIncident(rules, b, id)];
      settled := settled[id := settled[id].(active := Some(first + k), breachSince := None)];
    }
    assert opening[..|opening|] == opening;
  }

  // An incident that is missing or does not match its rule aborts the transaction.
  datatype Failure = MissingIncident | MismatchedIncident

  function Active(rules: map<nat, Rule>, id: nat): nat
    requires id in rules && rules[id].active.Some?
  {
    rules[id].active.value
  }

  ghost predicate Matches(rules: map<nat, Rule>, incidents: map<nat, Incident>, id: nat) {
    && id in rules && rules[id].active.Some? && Active(rules, id) in incidents
    && incidents[Active(rules, id)].closedAt.None? && incidents[Active(rules, id)].rule == id
    && incidents[Active(rules, id)].revision == rules[id].revision
  }

  // The open incidents that a list of rules names.
  function FoundOpen(rules: map<nat, Rule>, incidents: map<nat, Incident>, closing: seq<nat>): set<nat> {
    set id | id in closing && id in rules && rules[id].active.Some? && Active(rules, id) in incidents &&
             incidents[Active(rules, id)].closedAt.None? :: Active(rules, id)
  }

  lemma FoundOneMore(rules: map<nat, Rule>, incidents: map<nat, Incident>, rest: seq<nat>, last: nat)
    requires Matches(rules, incidents, last) && last !in rest && forall id | id in rest :: Matches(rules, incidents, id)
    ensures FoundOpen(rules, incidents, rest + [last]) == FoundOpen(rules, incidents, rest) + {Active(rules, last)}
    ensures Active(rules, last) !in FoundOpen(rules, incidents, rest)
  {
    forall i ensures i in FoundOpen(rules, incidents, rest + [last]) <==> i in FoundOpen(rules, incidents, rest) + {Active(rules, last)} {
      if i in FoundOpen(rules, incidents, rest) {
        var id :| id in rest && Active(rules, id) == i;
        assert id in rest + [last];
      }
      assert last in rest + [last];
    }
    forall id | id in rest ensures Active(rules, id) != Active(rules, last) {
      assert Matches(rules, incidents, id);
    }
  }

  lemma {:induction false} FoundCount(rules: map<nat, Rule>, incidents: map<nat, Incident>, closing: seq<nat>)
    requires Distinct(closing) && forall id | id in closing :: Matches(rules, incidents, id)
    ensures |FoundOpen(rules, incidents, closing)| == |closing|
  {
    if closing == [] {
      assert FoundOpen(rules, incidents, closing) == {};
    } else {
      hide FoundOpen, Matches;
      var n := |closing| - 1;
      assert closing == closing[..n] + [closing[n]] && closing[n] !in closing[..n];
      FoundCount(rules, incidents, closing[..n]);
      assert Matches(rules, incidents, closing[n]);
      FoundOneMore(rules, incidents, closing[..n], closing[n]);
    }
  }

  ghost predicate RecoveredTo(rules: map<nat, Rule>, b: Batch, closes: seq<nat>, incidents: map<nat, Incident>, after: map<nat, Incident>) {
    && after.Keys == incidents.Keys
    && forall i | i in incidents :: after[i] ==
         if incidents[i].rule in closes && incidents[i].rule in rules && rules[incidents[i].rule].active == Some(i)
         then incidents[i].(closedAt := Some(b.now), reason := Recovered, closingValue := Some(EffectValue(rules, b, incidents[i].rule)))
         else incidents[i]
  }

  lemma RecoversOneMore(rules: map<nat, Rule>, b: Batch, closing: seq<nat>, k: nat, incidents: map<nat, Incident>, after: map<nat, Incident>)
    requires k < |closing| && Matches(rules, incidents, closing[k]) && RecoveredTo(rules, b, closing[..k], incidents, after)
    ensures var i := Active(rules, closing[k]);
            RecoveredTo(rules, b, closing[..k + 1], incidents,
                        after[i := incidents[i].(closedAt := Some(b.now), reason := Recovered, closingValue := Some(EffectValue(rules, b, closing[k])))])
  {
    hide EffectValue;
    assert closing[..k + 1] == closing[..k] + [closing[k]];
  }

  lemma ClosesOneMore(rules: map<nat, Rule>, b: Batch, opening: seq<nat>, closing: seq<nat>, k: nat, first: nat, judged: map<nat, Rule>)
    requires k < |closing| && Distinct(closing) && closing[k] in judged && closing[k] !in opening
    requires CarriedOut(rules, b, opening, closing[..k], first, judged)
    ensures CarriedOut(rules, b, opening, closing[..k + 1], first, judged[closing[k] := judged[closing[k]].(active := None, recoverySince := None)])
  {
    hide Decide, Prepared;
    assert closing[..k + 1] == closing[..k] + [closing[k]] && closing[k] !in closing[..k];
  }

  method AllFound(rules: map<nat, Rule>, incidents: map<nat, Incident>, closing: seq<nat>) returns (all: bool)
    requires Distinct(closing)
    ensures !all ==> exists id :: id in closing && !Matches(rules, incidents, id)
  {
    all := |FoundOpen(rules, incidents, closing)| == |closing|;
    if !all && forall id | id in closing :: Matches(rules, incidents, id) { FoundCount(rules, incidents, closing); }
  }

  lemma NothingRecovered(rules: map<nat, Rule>, b: Batch, incidents: map<nat, Incident>)
    ensures RecoveredTo(rules, b, [], incidents, incidents)
  {
  }

  method RecoverIncidents(rules: map<nat, Rule>, b: Batch, ghost opening: seq<nat>, closing: seq<nat>, first: nat,
                          incidents: map<nat, Incident>, judged: map<nat, Rule>)
    returns (failure: Option<Failure>, after: map<nat, Incident>, settled: map<nat, Rule>)
    requires Distinct(closing) && forall id | id in closing :: id in rules && rules[id].active.Some? && id in judged && id !in opening
    requires CarriedOut(rules, b, opening, [], first, judged)
    ensures failure.None? <==> forall id | id in closing :: Matches(rules, incidents, id)
    ensures failure.None? ==> RecoveredTo(rules, b, closing, incidents, after) && CarriedOut(rules, b, opening, closing, first, settled) &&
                              settled.Keys == judged.Keys
  {
    hide CarriedOut, RecoveredTo, EffectValue, FoundOpen;
    after, settled := incidents, judged;
    var all := AllFound(rules, incidents, closing);
    if !all { return Some(MissingIncident), incidents, judged; }
    NothingRecovered(rules, b, incidents);
    assert closing[..0] == [];
    for k := 0 to |closing|
      invariant RecoveredTo(rules, b, closing[..k], incidents, after)
      invariant settled.Keys == judged.Keys && CarriedOut(rules, b, opening, closing[..k], first, settled)
      invariant forall n | 0 <= n < k :: Matches(rules, incidents, closing[n])
    {
      var id := closing[k];
      var i := Active(rules, id);
      if i !in incidents || incidents[i].closedAt.Some? || incidents[i].rule != id || incidents[i].revision != rules[id].revision {
        assert !Matches(rules, incidents, id);
        return Some(MismatchedIncident), incidents, judged;
      }
      RecoversOneMore(rules, b, closing, k, incidents, after);
      ClosesOneMore(rules, b, opening, closing, k, first, settled);
      after := after[i := incidents[i].(closedAt := Some(b.now), reason := Recovered, closingValue := Some(EffectValue(rules, b, id)))];
      settled := settled[id := settled[id].(active := None, recoverySince := None)];
    }
    assert closing[..|closing|] == closing;
    failure := None;
  }

  // ---- Messages -----------------------------------------------------------------------------------------------

  method RecipientsOf(destinations: map<nat, Destination>, ids: seq<nat>) returns (recipients: seq<nat>)
    ensures recipients == Recipients(destinations, ids)
  {
    recipients := [];
    var seen: set<nat> := {};
    for k := 0 to |ids|
      invariant recipients == Recipients(destinations, ids[..k]) && seen == Elements(recipients)
    {
      assert ids[..k + 1][..k] == ids[..k];
      var id := ids[k];
      if id in destinations && destinations[id].enabled && !destinations[id].deleted && id !in seen {
        seen := seen + {id};
        recipients := recipients + [id];
      }
    }
    assert ids[..|ids|] == ids;
  }

  method QueueAlertTransitions(rules: map<nat, Rule>, destinations: map<nat, Destination>, transitions: seq<Transition>, now: int)
    returns (messages: seq<Delivery>)
    ensures messages == Messages(rules, destinations, transitions, now)
  {
    messages := [];
    for k := 0 to |transitions|
      invariant messages == Messages(rules, destinations, transitions[..k], now)
    {
      assert transitions[..k + 1][..k] == transitions[..k];
      var t := transitions[k];
      var recipients := RecipientsOf(destinations, if t.rule in rules then rules[t.rule].destinations else []);
      messages := messages + MessagesTo(recipients, t, now);
    }
    assert transitions[..|transitions|] == transitions;
  }

  // ---- Putting the phases together ----------------------------------------------------------------------------

  lemma FinalRules(rules: map<nat, Rule>, b: Batch, order: seq<nat>, p: Pass, first: nat, done: map<nat, Rule>)
    requires Covers(b, order) && Collected(rules, b, order, p)
    requires done.Keys == p.judged.Keys && CarriedOut(rules, b, p.opening, p.closing, first, done)
    ensures rules + done == RulesAfter(rules, b, p.opening, first)
  {
    hide Evaluated;
    forall id | id in rules ensures (rules + done)[id] == RuleAfter(rules, b, p.opening, first, id) {
      OpeningInOrder(rules, b, order, id);
      FinalRule(rules, b, order, p, first, done, id);
    }
  }

  lemma FinalRule(rules: map<nat, Rule>, b: Batch, order: seq<nat>, p: Pass, first: nat, done: map<nat, Rule>, id: nat)
    requires Covers(b, order) && Collected(rules, b, order, p) && id in rules
    requires done.Keys == p.judged.Keys && CarriedOut(rules, b, p.opening, p.closing, first, done)
    requires (Opening(rules, b, id) <==> id in p.opening) && (Closing(rules, b, id) <==> id in p.closing)
    ensures (rules + done)[id] == RuleAfter(rules, b, p.opening, first, id)
  {
    hide Evaluated, Detached, Openings, Closings;
    assert Decide(rules, b, id).Skipped? || id in order;
  }

  // Recovering the closed table is recovering the open incidents of closing rules in it.
  lemma RecoveredOld(rules: map<nat, Rule>, b: Batch, closing: seq<nat>, closed: map<nat, Incident>)
    requires forall id :: id in closing <==> Closing(rules, b, id)
    ensures RecoveredTo(rules, b, closing, closed, RecoveredIncidents(closed, rules, b))
  {
    hide Decide, EffectValue, Closing;
  }

  lemma RecoveredSame(rules: map<nat, Rule>, b: Batch, closing: seq<nat>, closed: map<nat, Incident>, fresh_: map<nat, Incident>,
                      old_: map<nat, Incident>, after: map<nat, Incident>)
    requires RecoveredTo(rules, b, closing, closed, old_) && closed.Keys !! fresh_.Keys
    requires forall i | i in fresh_ :: fresh_[i].rule !in closing
    requires RecoveredTo(rules, b, closing, closed + fresh_, after)
    ensures after == old_ + fresh_
  {
    hide EffectValue;
  }

  lemma FinalIncidents(s: State, b: Batch, opening: seq<nat>, closing: seq<nat>, closed: map<nat, Incident>, after: map<nat, Incident>)
    requires Safe(s) && forall id | id in opening :: id in s.rules && id !in closing
    requires closed == ClosedForConfiguration(s.incidents, ActiveIncidents(s.rules, DetachedSet(s.rules, b)), b.now)
    requires forall id :: id in closing <==> Closing(s.rules, b, id)
    requires RecoveredTo(s.rules, b, closing, closed + OpenedIncidents(s.rules, b, opening, s.nextIncident), after)
    ensures after == IncidentsAfter(s, b, opening)
  {
    hide Decide, ActiveIncidents, DetachedSet, EffectValue, RecoveredTo, Closing, RecoveredIncidents;
    RecoveredOld(s.rules, b, closing, closed);
    RecoveredSame(s.rules, b, closing, closed, OpenedIncidents(s.rules, b, opening, s.nextIncident), RecoveredIncidents(closed, s.rules, b), after);
  }

  lemma AllMatch(s: State, b: Batch, opening: seq<nat>, closing: seq<nat>, closed: map<nat, Incident>)
    requires Safe(s) && (forall id | id in opening :: id in s.rules)
    requires closed == ClosedForConfiguration(s.incidents, ActiveIncidents(s.rules, DetachedSet(s.rules, b)), b.now)
    requires forall id | id in closing :: Closing(s.rules, b, id)
    ensures forall id | id in closing :: Matches(s.rules, closed + OpenedIncidents(s.rules, b, opening, s.nextIncident), id)
  {
    hide Decide, ActiveIncidents, DetachedSet;
    forall id | id in closing ensures Matches(s.rules, closed + OpenedIncidents(s.rules, b, opening, s.nextIncident), id) {
      ClosingChecksHold(s, b, id);
    }
  }

  lemma ClosingHasActive(rules: map<nat, Rule>, b: Batch, id: nat)
    requires Closing(rules, b, id)
    ensures id in rules && rules[id].active.Some?
  {
  }

  lemma GoneIsDetached(rules: map<nat, Rule>, b: Batch, order: seq<nat>, p: Pass, first: nat)
    requires Covers(b, order) && Collected(rules, b, order, p)
    ensures Elements(p.gone) == DetachedSet(rules, b) && forall id | id in p.gone :: id in rules
    ensures forall id | id in p.opening :: id in rules && id in p.judged && Opening(rules, b, id) && id !in p.closing
    ensures forall id :: id in p.closing <==> Closing(rules, b, id)
    ensures forall id | id in p.closing :: id in rules && rules[id].active.Some? && id in p.judged && id !in p.opening
    ensures CarriedOut(rules, b, [], [], first, p.judged)
  {
    hide Evaluated;
    forall id | id in p.closing ensures id in rules && rules[id].active.Some? { ClosingHasActive(rules, b, id); }
    forall id ensures id in p.closing <==> Closing(rules, b, id) { OpeningInOrder(rules, b, order, id); }
  }
}
