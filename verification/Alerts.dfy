// The alert tables of one workspace and what each transaction does to them.
module Alerts {
  import opened Options
  import opened AlertRules

  datatype CloseReason = NoReason | Recovered | ConfigurationChanged

  datatype Incident = Incident(rule: nat, revision: nat, metric: Metric, threshold: real, openingValue: real, openedAt: int,
                               closedAt: Option<int>, closingValue: Option<real>, reason: CloseReason)

  datatype DeliveryStatus = Pending | Processing | Sent | Failed | Canceled

  datatype Event = OpenedEvent | RecoveredEvent

  // Token 0 is the empty claim token.
  datatype Delivery = Delivery(incident: nat, destination: nat, event: Event, value: real, status: DeliveryStatus, token: nat,
                               attempts: nat, nextAttempt: int, lastAttempt: Option<int>)

  datatype Destination = Destination(enabled: bool, deleted: bool)

  datatype State = State(rules: map<nat, Rule>, incidents: map<nat, Incident>, deliveries: map<nat, Delivery>,
                         destinations: map<nat, Destination>, nextIncident: nat, nextDelivery: nat)

  // The ids an insert of n rows takes.
  function FreshIds(first: nat, n: nat): (ids: set<nat>)
    ensures forall k: nat :: k in ids <==> first <= k < first + n
  {
    if n == 0 then {} else FreshIds(first, n - 1) + {first + n - 1}
  }

  predicate Waiting(d: Delivery) {
    d.status == Pending || d.status == Processing
  }

  // ---- Configuration changes ------------------------------------------------------------------------------

  function ActiveIncidents(rules: map<nat, Rule>, gone: set<nat>): set<nat> {
    set id | id in gone && id in rules && rules[id].active.Some? :: rules[id].active.value
  }

  function ClosedForConfiguration(incidents: map<nat, Incident>, ids: set<nat>, now: int): map<nat, Incident> {
    map i | i in incidents ::
      if i in ids && incidents[i].closedAt.None? then incidents[i].(closedAt := Some(now), reason := ConfigurationChanged) else incidents[i]
  }

  function CanceledFor(deliveries: map<nat, Delivery>, incidents: map<nat, Incident>, gone: set<nat>): map<nat, Delivery> {
    map d | d in deliveries ::
      if Waiting(deliveries[d]) && deliveries[d].incident in incidents && incidents[deliveries[d].incident].rule in gone
      then deliveries[d].(status := Canceled, token := 0) else deliveries[d]
  }

  // A configuration change of some rules: their open incidents close, all their waiting deliveries are canceled.
  function ConfigurationChange(s: State, gone: set<nat>, now: int): State {
    s.(incidents := ClosedForConfiguration(s.incidents, ActiveIncidents(s.rules, gone), now),
       deliveries := CanceledFor(s.deliveries, s.incidents, gone))
  }

  datatype RuleWrite = RuleWrite(metric: Metric, threshold: real, rotator: Option<nat>, enabled: bool, destinations: seq<nat>)

  function Written(revision: nat, w: RuleWrite): Rule {
    Rule(w.enabled, false, revision, w.metric, w.threshold, w.rotator, w.destinations,
         if w.enabled then Unknown else Disabled, None, None, None, None, None, None)
  }

  function Live(s: State, id: nat): bool {
    id in s.rules && !s.rules[id].deleted
  }

  // A new rule gets revision 1 under a fresh id, an edited one the next revision.
  function SavedRule(s: State, id: nat, w: RuleWrite, now: int): State {
    if id !in s.rules then s.(rules := s.rules[id := Written(1, w)])
    else if s.rules[id].deleted then s
    else
      var changed := ConfigurationChange(s, {id}, now);
      changed.(rules := s.rules[id := Written(s.rules[id].revision + 1, w)])
  }

  function DeletedRule(s: State, id: nat, now: int): State {
    if !Live(s, id) then s
    else ConfigurationChange(s, {id}, now).(rules := s.rules[id := s.rules[id].(deleted := true)])
  }

  function Detached(rule: Rule): Rule {
    rule.(enabled := false, status := Disabled, revision := rule.revision + 1, active := None, breachSince := None, recoverySince := None)
  }

  function RotatorRules(rules: map<nat, Rule>, rotator: nat): set<nat> {
    set id | id in rules && !rules[id].deleted && rules[id].rotator == Some(rotator)
  }

  function DeletedRotator(s: State, rotator: nat, now: int): State {
    var gone := RotatorRules(s.rules, rotator);
    ConfigurationChange(s, gone, now).(rules := map id | id in s.rules :: if id in gone then Detached(s.rules[id]) else s.rules[id])
  }

  function CanceledAt(deliveries: map<nat, Delivery>, destination: nat): map<nat, Delivery> {
    map d | d in deliveries ::
      if Waiting(deliveries[d]) && deliveries[d].destination == destination then deliveries[d].(status := Canceled, token := 0)
      else deliveries[d]
  }

  // Saving or deleting a destination: what waits for it is canceled first.
  function ChangedDestination(s: State, id: nat, enabled: bool, deleted: bool): State {
    if id in s.destinations && s.destinations[id].deleted then s
    else if id !in s.destinations && deleted then s
    else s.(deliveries := if id in s.destinations then CanceledAt(s.deliveries, id) else s.deliveries,
            destinations := s.destinations[id := Destination(enabled, deleted)])
  }

  // ---- Evaluation -------------------------------------------------------------------------------------------

  datatype Observation = Observation(revision: nat, missingRotator: bool, value: Option<real>)

  // The observations of a batch by rule; `clean` says that no checker change happened since they were taken.
  datatype Batch = Batch(inputs: map<nat, Observation>, clean: bool, now: int)

  datatype Decision = Skipped | Detaches | Judged(verdict: Verdict)

  function Decide(rules: map<nat, Rule>, b: Batch, id: nat): Decision {
    if id !in rules || id !in b.inputs || !rules[id].enabled || rules[id].deleted || rules[id].revision != b.inputs[id].revision then Skipped
    else if b.inputs[id].missingRotator then Detaches
    else if rules[id].lastEvaluated.Some? && b.now <= rules[id].lastEvaluated.value then Skipped
    else Judged(Evaluated(rules[id], if b.clean then b.inputs[id].value else None, b.now))
  }

  predicate Opening(rules: map<nat, Rule>, b: Batch, id: nat) {
    var d := Decide(rules, b, id); d.Judged? && d.verdict.effect.Opens?
  }

  predicate Closing(rules: map<nat, Rule>, b: Batch, id: nat) {
    var d := Decide(rules, b, id); d.Judged? && d.verdict.effect.Closes?
  }

  function EffectValue(rules: map<nat, Rule>, b: Batch, id: nat): real {
    var d := Decide(rules, b, id);
    if d.Judged? && !d.verdict.effect.Nothing? then d.verdict.effect.value else 0.0
  }

  function DetachedSet(rules: map<nat, Rule>, b: Batch): set<nat> {
    set id | id in b.inputs && Decide(rules, b, id).Detaches?
  }

  // The rules of a list that open, and those that close, in the order of the list.
  function Openings(rules: map<nat, Rule>, b: Batch, order: seq<nat>): (r: seq<nat>)
    ensures forall id :: id in r <==> id in order && Opening(rules, b, id)
    ensures forall id | id in r :: id in rules
  {
    if order == [] then []
    else Openings(rules, b, order[..|order| - 1]) + (if Opening(rules, b, order[|order| - 1]) then [order[|order| - 1]] else [])
  }

  function Closings(rules: map<nat, Rule>, b: Batch, order: seq<nat>): (r: seq<nat>)
    ensures forall id :: id in r <==> id in order && Closing(rules, b, id)
    ensures forall id | id in r :: id in rules
  {
    if order == [] then []
    else Closings(rules, b, order[..|order| - 1]) + (if Closing(rules, b, order[|order| - 1]) then [order[|order| - 1]] else [])
  }

  function IndexOf(ids: seq<nat>, id: nat): (k: nat)
    requires id in ids
    ensures k < |ids| && ids[k] == id
  {
    if ids[0] == id then 0 else 1 + IndexOf(ids[1..], id)
  }

  function RuleAfter(rules: map<nat, Rule>, b: Batch, opening: seq<nat>, first: nat, id: nat): Rule
    requires id in rules && (Opening(rules, b, id) ==> id in opening)
  {
    match Decide(rules, b, id)
    case Skipped => rules[id]
    case Detaches => Detached(rules[id]).(lastAttempt := Later(rules[id].lastAttempt, b.now))
    case Judged(verdict) => Settled(verdict, if verdict.effect.Opens? then first + IndexOf(opening, id) else 0)
  }

  function NewIncident(rules: map<nat, Rule>, b: Batch, id: nat): Incident
    requires id in rules
  {
    var rule := rules[id];
    Incident(id, rule.revision, rule.metric, rule.threshold, EffectValue(rules, b, id), b.now, None, None, NoReason)
  }

  function RecoveredIncidents(incidents: map<nat, Incident>, rules: map<nat, Rule>, b: Batch): map<nat, Incident> {
    map i | i in incidents ::
      if incidents[i].rule in rules && rules[incidents[i].rule].active == Some(i) && Closing(rules, b, incidents[i].rule)
      then incidents[i].(closedAt := Some(b.now), reason := Recovered,
                         closingValue := Some(EffectValue(rules, b, incidents[i].rule)))
      else incidents[i]
  }

  function OpenedIncidents(rules: map<nat, Rule>, b: Batch, opening: seq<nat>, first: nat): map<nat, Incident>
    requires forall id | id in opening :: id in rules
  {
    map k | k in FreshIds(first, |opening|) :: NewIncident(rules, b, opening[k - first])
  }

  datatype Transition = Transition(rule: nat, incident: nat, event: Event, value: real)

  function ActiveOf(rules: map<nat, Rule>, id: nat): nat {
    if id in rules && rules[id].active.Some? then rules[id].active.value else 0
  }

  function Transitions(rules: map<nat, Rule>, b: Batch, opening: seq<nat>, closing: seq<nat>, first: nat): seq<Transition>
  {
    seq(|opening|, k requires 0 <= k < |opening| =>
      Transition(opening[k], first + k, OpenedEvent, EffectValue(rules, b, opening[k]))) +
    seq(|closing|, k requires 0 <= k < |closing| =>
      Transition(closing[k], ActiveOf(rules, closing[k]), RecoveredEvent,
                 EffectValue(rules, b, closing[k])))
  }

  // The enabled destinations of a rule, each once, in the rule's order.
  function Recipients(destinations: map<nat, Destination>, ids: seq<nat>): (r: seq<nat>)
    ensures forall id :: id in r <==> id in ids && id in destinations && destinations[id].enabled && !destinations[id].deleted
    ensures forall i, j | 0 <= i < j < |r| :: r[i] != r[j]
  {
    if ids == [] then []
    else
      var rest, id := Recipients(destinations, ids[..|ids| - 1]), ids[|ids| - 1];
      if id in destinations && destinations[id].enabled && !destinations[id].deleted && id !in rest then rest + [id] else rest
  }

  function MessagesTo(recipients: seq<nat>, t: Transition, now: int): seq<Delivery> {
    seq(|recipients|, k requires 0 <= k < |recipients| =>
      Delivery(t.incident, recipients[k], t.event, t.value, Pending, 0, 0, now, None))
  }

  function Messages(rules: map<nat, Rule>, destinations: map<nat, Destination>, transitions: seq<Transition>, now: int): seq<Delivery> {
    if transitions == [] then []
    else
      var t := transitions[|transitions| - 1];
      Messages(rules, destinations, transitions[..|transitions| - 1], now) +
      MessagesTo(Recipients(destinations, if t.rule in rules then rules[t.rule].destinations else []), t, now)
  }

  function Inserted(deliveries: map<nat, Delivery>, messages: seq<Delivery>, first: nat): map<nat, Delivery> {
    deliveries + map k | k in FreshIds(first, |messages|) :: messages[k - first]
  }

  function RulesAfter(rules: map<nat, Rule>, b: Batch, opening: seq<nat>, first: nat): map<nat, Rule>
    requires forall id | id in rules && Opening(rules, b, id) :: id in opening
  {
    map id | id in rules :: RuleAfter(rules, b, opening, first, id)
  }

  function IncidentsAfter(s: State, b: Batch, opening: seq<nat>): map<nat, Incident>
    requires forall id | id in opening :: id in s.rules
  {
    RecoveredIncidents(ClosedForConfiguration(s.incidents, ActiveIncidents(s.rules, DetachedSet(s.rules, b)), b.now), s.rules, b) +
    OpenedIncidents(s.rules, b, opening, s.nextIncident)
  }

  function BatchMessages(s: State, b: Batch, opening: seq<nat>, closing: seq<nat>): seq<Delivery> {
    Messages(s.rules, s.destinations, Transitions(s.rules, b, opening, closing, s.nextIncident), b.now)
  }

  function DeliveriesAfter(s: State, b: Batch, messages: seq<Delivery>): map<nat, Delivery> {
    Inserted(CanceledFor(s.deliveries, s.incidents, DetachedSet(s.rules, b)), messages, s.nextDelivery)
  }

  // The whole transaction, for the batch's rules listed in id order.
  function Observed(s: State, b: Batch, order: seq<nat>): State
    requires forall id | id in b.inputs :: id in order
  {
    var opening, closing := Openings(s.rules, b, order), Closings(s.rules, b, order);
    var messages := BatchMessages(s, b, opening, closing);
    State(RulesAfter(s.rules, b, opening, s.nextIncident), IncidentsAfter(s, b, opening), DeliveriesAfter(s, b, messages),
          s.destinations, s.nextIncident + |opening|, s.nextDelivery + |messages|)
  }

  // ---- Deliveries -------------------------------------------------------------------------------------------

  const MAXIMUM_ATTEMPTS := 4
  const STALE_AFTER := 300 * SECOND

  predicate StaleClaim(d: Delivery, now: int) {
    d.status == Processing && d.lastAttempt.Some? && d.lastAttempt.value < now - STALE_AFTER
  }

  // Interrupted claims return to the queue, or fail once their attempts are used up.
  function Reclaimed(deliveries: map<nat, Delivery>, now: int): map<nat, Delivery> {
    map d | d in deliveries ::
      if StaleClaim(deliveries[d], now) then
        deliveries[d].(status := if deliveries[d].attempts >= MAXIMUM_ATTEMPTS then Failed else Pending, token := 0)
      else deliveries[d]
  }

  predicate SameKey(a: Delivery, b: Delivery) {
    a.incident == b.incident && a.destination == b.destination
  }

  // Due, and nothing older of the same incident and destination is waiting.
  predicate Eligible(deliveries: map<nat, Delivery>, now: int, id: nat) {
    && id in deliveries && deliveries[id].status == Pending && deliveries[id].nextAttempt <= now
    && forall older | older in deliveries :: older < id && SameKey(deliveries[older], deliveries[id]) ==> !Waiting(deliveries[older])
  }

  function Taken(deliveries: map<nat, Delivery>, claimed: set<nat>, token: nat, now: int): map<nat, Delivery> {
    map d | d in deliveries ::
      if d in claimed then deliveries[d].(status := Processing, token := token, attempts := deliveries[d].attempts + 1, lastAttempt := Some(now))
      else deliveries[d]
  }

  function Claimed(s: State, claimed: set<nat>, token: nat, now: int): State {
    s.(deliveries := Taken(Reclaimed(s.deliveries, now), claimed, token, now))
  }

  function Finished(s: State, id: nat, token: nat, status: DeliveryStatus, next: int): State {
    if id in s.deliveries && s.deliveries[id].status == Processing && s.deliveries[id].token == token then
      s.(deliveries := s.deliveries[id := s.deliveries[id].(status := status, nextAttempt := next, token := 0)])
    else s
  }

  predicate Retryable(s: State, id: nat) {
    && id in s.deliveries && s.deliveries[id].status == Failed
    && s.deliveries[id].destination in s.destinations
    && s.destinations[s.deliveries[id].destination].enabled && !s.destinations[s.deliveries[id].destination].deleted
    && (forall newer | newer in s.deliveries :: newer > id ==> !SameKey(s.deliveries[newer], s.deliveries[id]))
    && s.deliveries[id].incident in s.incidents && s.incidents[s.deliveries[id].incident].reason != ConfigurationChanged
    && Live(s, s.incidents[s.deliveries[id].incident].rule)
    && s.rules[s.incidents[s.deliveries[id].incident].rule].revision == s.incidents[s.deliveries[id].incident].revision
  }

  function Retried(s: State, id: nat, now: int): State {
    if Retryable(s, id) then
      s.(deliveries := s.deliveries[id := s.deliveries[id].(status := Pending, attempts := 0, nextAttempt := now, token := 0)])
    else s
  }

  // Removing closed incidents takes their deliveries with them.
  function Cleaned(s: State, old_: set<nat>): State {
    var gone := set i | i in old_ && i in s.incidents && s.incidents[i].closedAt.Some?;
    s.(incidents := s.incidents - gone, deliveries := map d | d in s.deliveries && s.deliveries[d].incident !in gone :: s.deliveries[d])
  }
}
