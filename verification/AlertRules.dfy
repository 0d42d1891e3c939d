// One alert rule under evaluation: breach and recovery must be sustained before an incident opens or closes.
module AlertRules {
  import opened Options

  const SECOND := 1_000_000_000
  const SUSTAIN := 120 * SECOND
  const MAXIMUM_GAP := 90 * SECOND

  datatype Metric = UsableRoutes | SuccessRate | Latency

  datatype RuleStatus = Unknown | Breaching | Healthy | Disabled

  datatype Rule = Rule(
    enabled: bool, deleted: bool, revision: nat,
    metric: Metric, threshold: real, rotator: Option<nat>, destinations: seq<nat>,
    status: RuleStatus, lastValue: Option<real>, lastEvaluated: Option<int>, lastAttempt: Option<int>,
    breachSince: Option<int>, recoverySince: Option<int>, active: Option<nat>)

  datatype Effect = Nothing | Opens(value: real) | Closes(value: real)

  datatype Verdict = Verdict(rule: Rule, effect: Effect)

  function Later(attempt: Option<int>, now: int): Option<int> {
    if attempt.None? || attempt.value < now then Some(now) else attempt
  }

  predicate Breaches(rule: Rule, value: real) {
    if rule.metric == Latency then value > rule.threshold else value < rule.threshold
  }

  // The rule after an evaluation, and what it asks of the incidents. A gap of more than 90 seconds, or an
  // unknown value, starts both clocks over.
  function Evaluated(rule: Rule, value: Option<real>, now: int): Verdict {
    var gap := rule.lastEvaluated.Some? && now - rule.lastEvaluated.value > MAXIMUM_GAP;
    var breach := if gap then None else rule.breachSince;
    var recovery := if gap then None else rule.recoverySince;
    var base := rule.(lastEvaluated := Some(now), lastValue := value, lastAttempt := Later(rule.lastAttempt, now));
    if value.None? then Verdict(base.(status := Unknown, breachSince := None, recoverySince := None), Nothing)
    else if Breaches(rule, value.value) then
      var since := if breach.Some? then breach.value else now;
      if rule.active.Some? then Verdict(base.(status := Breaching, breachSince := breach, recoverySince := None), Nothing)
      else Verdict(base.(status := Breaching, breachSince := Some(since), recoverySince := None),
                   if now - since >= SUSTAIN then Opens(value.value) else Nothing)
    else
      var since := if recovery.Some? then recovery.value else now;
      if rule.active.None? then Verdict(base.(status := Healthy, breachSince := None, recoverySince := None), Nothing)
      else Verdict(base.(status := Healthy, breachSince := None, recoverySince := Some(since)),
                   if now - since >= SUSTAIN then Closes(value.value) else Nothing)
  }

  method Evaluate(rule: Rule, value: Option<real>, now: int) returns (after: Rule, effect: Effect)
    ensures Verdict(after, effect) == Evaluated(rule, value, now)
  {
    var breach, recovery := rule.breachSince, rule.recoverySince;
    var status := Unknown;
    effect := Nothing;
    if rule.lastEvaluated.Some? && now - rule.lastEvaluated.value > MAXIMUM_GAP {
      breach, recovery := None, None;
    }
    if value.None? {
      breach, recovery := None, None;
    } else if Breaches(rule, value.value) {
      status, recovery := Breaching, None;
      if rule.active.None? {
        if breach.None? { breach := Some(now); }
        if now - breach.value >= SUSTAIN { effect := Opens(value.value); }
      }
    } else {
      status, breach := Healthy, None;
      if rule.active.Some? {
        if recovery.None? { recovery := Some(now); }
        if now - recovery.value >= SUSTAIN { effect := Closes(value.value); }
      } else {
        recovery := None;
      }
    }
    after := rule.(status := status, lastValue := value, lastEvaluated := Some(now), lastAttempt := Later(rule.lastAttempt, now),
                   breachSince := breach, recoverySince := recovery);
  }

  // What the transaction then does to the rule itself.
  function Settled(verdict: Verdict, incident: nat): Rule {
    match verdict.effect
    case Nothing => verdict.rule
    case Opens(_) => verdict.rule.(active := Some(incident), breachSince := None)
    case Closes(_) => verdict.rule.(active := None, recoverySince := None)
  }
}
