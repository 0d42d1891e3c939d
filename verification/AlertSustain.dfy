// What the evaluations of one rule revision promise about its incidents, over every run.
module AlertSustain {
  import opened Options
  import opened AlertRules

  // One evaluation as its history shows it.
  datatype Entry = Entry(time: int, value: Option<real>)

  datatype Input = Input(time: int, value: Option<real>, incident: nat)

  // A rule and everything that was evaluated under its present revision, and when its incidents opened.
  datatype History = History(rule: Rule, log: seq<Entry>, openings: seq<int>)

  // Evaluations at or before the last one are skipped.
  ghost function Step(h: History, input: Input): History {
    if h.rule.lastEvaluated.Some? && input.time <= h.rule.lastEvaluated.value then h
    else
      var verdict := Evaluated(h.rule, input.value, input.time);
      History(Settled(verdict, input.incident), h.log + [Entry(input.time, input.value)],
              if verdict.effect.Opens? then h.openings + [input.time] else h.openings)
  }

  ghost function After(h: History, inputs: seq<Input>): History
    decreases |inputs|
  {
    if inputs == [] then h else After(Step(h, inputs[0]), inputs[1..])
  }

  // A rule as a save leaves it.
  ghost predicate Fresh(h: History) {
    && h.rule.lastEvaluated.None? && h.rule.breachSince.None? && h.rule.recoverySince.None? && h.rule.active.None?
    && h.log == [] && h.openings == []
  }

  // An evaluation at most 90 seconds after the one before it.
  ghost predicate InTime(log: seq<Entry>, k: nat)
    requires 0 < k < |log|
  {
    log[k - 1].time < log[k].time <= log[k - 1].time + 90 * SECOND
  }

  // Latencies should stay at or below the threshold, and the other metrics at or above it.
  ghost predicate Bad(rule: Rule, value: real) {
    (rule.metric == Latency && value > rule.threshold) || (rule.metric != Latency && value < rule.threshold)
  }

  // From position i to the end of the log every evaluation breached (or was healthy), none more than 90
  // seconds after the one before it.
  ghost predicate Sustained(rule: Rule, log: seq<Entry>, i: nat, breached: bool) {
    && i < |log|
    && (forall k | i <= k < |log| :: log[k].value.Some? && Bad(rule, log[k].value.value) == breached)
    && (forall k | i < k < |log| :: InTime(log, k))
  }

  ghost predicate SustainedSince(rule: Rule, log: seq<Entry>, since: int, breached: bool) {
    exists i :: 0 <= i < |log| && log[i].time == since && Sustained(rule, log, i, breached)
  }

  ghost predicate FarApart(openings: seq<int>) {
    forall i, j | 0 <= i < j < |openings| :: openings[j] - openings[i] > 2 * SUSTAIN
  }

  lemma AppendFarApart(openings: seq<int>, time: int)
    requires FarApart(openings)
    ensures openings == [] || time - openings[|openings| - 1] > 2 * SUSTAIN ==> FarApart(openings + [time])
  {
  }

  // The clocks point into the log, and an opening leaves room for the recovery and the next breach.
  ghost predicate Tracked(h: History) {
    && (if h.log == [] then h.rule.lastEvaluated.None? else h.rule.lastEvaluated == Some(h.log[|h.log| - 1].time))
    && (h.rule.breachSince.Some? ==> h.rule.active.None? && SustainedSince(h.rule, h.log, h.rule.breachSince.value, true))
    && (h.rule.recoverySince.Some? ==> h.rule.active.Some? && SustainedSince(h.rule, h.log, h.rule.recoverySince.value, false))
    && (h.rule.active.Some? ==> h.openings != [])
    && (h.openings != [] ==> Spaced(h.rule, h.openings[|h.openings| - 1]))
    && FarApart(h.openings)
  }

  // An opening at a given time lies far enough behind the rule's clocks.
  ghost predicate Spaced(rule: Rule, at: int) {
    && rule.lastEvaluated.Some?
    && (if rule.active.Some? then
          at <= rule.lastEvaluated.value && (rule.recoverySince.Some? ==> rule.recoverySince.value > at)
        else
          rule.lastEvaluated.value > at + SUSTAIN && (rule.breachSince.Some? ==> rule.breachSince.value > at + SUSTAIN))
  }

  // An evaluation keeps every earlier opening behind, and opens only far after each of them.
  lemma EvaluationKeepsSpacing(rule: Rule, value: Option<real>, now: int, incident: nat, at: int)
    requires Spaced(rule, at) && now > rule.lastEvaluated.value
    ensures var verdict := Evaluated(rule, value, now);
            && Spaced(Settled(verdict, incident), at)
            && (verdict.effect.Opens? ==> now - at > 2 * SUSTAIN)
  {
  }

  lemma OpeningIsSpaced(rule: Rule, value: Option<real>, now: int, incident: nat)
    ensures var verdict := Evaluated(rule, value, now);
            && verdict.rule.active == rule.active
            && (verdict.effect.Opens? ==> rule.active.None? && Spaced(Settled(verdict, incident), now))
  {
  }

  ghost predicate Evaluates(h: History, input: Input) {
    h.rule.lastEvaluated.None? || input.time > h.rule.lastEvaluated.value
  }

  // Extending a sustained stretch by one more evaluation of the same kind, in time.
  lemma Extends(rule: Rule, log: seq<Entry>, since: int, breached: bool, entry: Entry)
    requires SustainedSince(rule, log, since, breached)
    requires entry.value.Some? && Bad(rule, entry.value.value) == breached
    requires log[|log| - 1].time < entry.time <= log[|log| - 1].time + MAXIMUM_GAP
    ensures SustainedSince(rule, log + [entry], since, breached)
  {
    var i :| 0 <= i < |log| && log[i].time == since && Sustained(rule, log, i, breached);
    var all := log + [entry];
    forall k | i < k < |all| ensures InTime(all, k) {
      assert k < |log| ==> InTime(log, k);
    }
    assert all[i].time == since && Sustained(rule, all, i, breached);
  }

  lemma Begins(rule: Rule, log: seq<Entry>, breached: bool, entry: Entry)
    requires entry.value.Some? && Bad(rule, entry.value.value) == breached
    ensures SustainedSince(rule, log + [entry], entry.time, breached)
  {
    assert (log + [entry])[|log|] == entry && Sustained(rule, log + [entry], |log|, breached);
  }

  // Only the metric and the threshold decide what breaches.
  lemma SameThreshold(a: Rule, b: Rule, log: seq<Entry>, since: int, breached: bool)
    requires a.metric == b.metric && a.threshold == b.threshold && SustainedSince(a, log, since, breached)
    ensures SustainedSince(b, log, since, breached)
  {
    var i :| 0 <= i < |log| && log[i].time == since && Sustained(a, log, i, breached);
    assert Sustained(b, log, i, breached);
  }

  // The clock that the evaluation shows, before the incident changes, points into the longer log.
  lemma ClockSustained(h: History, input: Input)
    requires Tracked(h) && Evaluates(h, input)
    ensures var rule := Evaluated(h.rule, input.value, input.time).rule;
            var log := h.log + [Entry(input.time, input.value)];
            && (rule.breachSince.Some? ==> SustainedSince(h.rule, log, rule.breachSince.value, true))
            && (rule.recoverySince.Some? ==> SustainedSince(h.rule, log, rule.recoverySince.value, false))
  {
    var entry := Entry(input.time, input.value);
    var rule := Evaluated(h.rule, input.value, input.time).rule;
    if rule.breachSince.Some? {
      if h.rule.breachSince.Some? && input.time - h.rule.lastEvaluated.value <= MAXIMUM_GAP { Extends(h.rule, h.log, rule.breachSince.value, true, entry); }
      else { Begins(h.rule, h.log, true, entry); }
    }
    if rule.recoverySince.Some? {
      if h.rule.recoverySince.Some? && input.time - h.rule.lastEvaluated.value <= MAXIMUM_GAP { Extends(h.rule, h.log, rule.recoverySince.value, false, entry); }
      else { Begins(h.rule, h.log, false, entry); }
    }
  }

  lemma StepKeepsSpacing(h: History, input: Input)
    requires Tracked(h)
    ensures var next := Step(h, input);
            && (next.rule.active.Some? ==> next.openings != [])
            && (next.openings != [] ==> Spaced(next.rule, next.openings[|next.openings| - 1]))
            && FarApart(next.openings)
  {
    hide SustainedSince, FarApart, Evaluated;
    AppendFarApart(h.openings, input.time);
    OpeningIsSpaced(h.rule, input.value, input.time, input.incident);
    if h.openings != [] && Evaluates(h, input) {
      EvaluationKeepsSpacing(h.rule, input.value, input.time, input.incident, h.openings[|h.openings| - 1]);
    }
  }

  // What an evaluation leaves of the rule's clocks once the incident was opened or closed.
  lemma SettledClocks(rule: Rule, value: Option<real>, now: int, incident: nat)
    requires rule.breachSince.Some? ==> rule.active.None?
    requires rule.recoverySince.Some? ==> rule.active.Some?
    ensures var verdict := Evaluated(rule, value, now);
            var next := Settled(verdict, incident);
            && next.metric == rule.metric && next.threshold == rule.threshold && next.lastEvaluated == Some(now)
            && (next.breachSince.Some? ==> next.active.None? && verdict.rule.breachSince == next.breachSince)
            && (next.recoverySince.Some? ==> next.active.Some? && verdict.rule.recoverySince == next.recoverySince)
  {
  }

  lemma StepKeepsTracked(h: History, input: Input)
    requires Tracked(h)
    ensures Tracked(Step(h, input))
  {
    hide SustainedSince, FarApart, Spaced, Breaches, Evaluated, Settled;
    StepKeepsSpacing(h, input);
    if Evaluates(h, input) {
      ClockSustained(h, input);
      SettledClocks(h.rule, input.value, input.time, input.incident);
      var next := Step(h, input);
      if next.rule.breachSince.Some? { SameThreshold(h.rule, next.rule, next.log, next.rule.breachSince.value, true); }
      if next.rule.recoverySince.Some? { SameThreshold(h.rule, next.rule, next.log, next.rule.recoverySince.value, false); }
    }
  }

  lemma {:induction false} RunKeepsTracked(h: History, inputs: seq<Input>)
    requires Tracked(h)
    ensures Tracked(After(h, inputs))
    decreases |inputs|
  {
    if inputs != [] {
      StepKeepsTracked(h, inputs[0]);
      RunKeepsTracked(Step(h, inputs[0]), inputs[1..]);
    }
  }

  // A stretch of at least three evaluations of one kind, each at most 90 seconds after the one before,
  // spanning at least two minutes and ending now.
  ghost predicate LongStretch(rule: Rule, log: seq<Entry>, i: nat, breached: bool) {
    Sustained(rule, log, i, breached) && |log| - i >= 3 && log[|log| - 1].time - log[i].time >= 120 * SECOND
  }

  lemma Span(rule: Rule, log: seq<Entry>, since: int, breached: bool) returns (i: nat)
    requires SustainedSince(rule, log, since, breached) && log[|log| - 1].time - since >= SUSTAIN
    ensures LongStretch(rule, log, i, breached)
  {
    i :| 0 <= i < |log| && log[i].time == since && Sustained(rule, log, i, breached);
    assert i < |log| - 1 && InTime(log, |log| - 1);
  }

  // ---- No sustained stretch is missed -------------------------------------------------------------------------

  // The clock runs since the first evaluation of the stretch that the log ends with.
  ghost predicate Unmissed(h: History) {
    && (h.rule.active.None? ==> forall j: nat | Sustained(h.rule, h.log, j, true) ::
          h.rule.breachSince.Some? && h.rule.breachSince.value <= h.log[j].time)
    && (h.rule.active.Some? ==> forall j: nat | Sustained(h.rule, h.log, j, false) ::
          h.rule.recoverySince.Some? && h.rule.recoverySince.value <= h.log[j].time)
  }

  lemma Shortened(rule: Rule, log: seq<Entry>, entry: Entry, j: nat, breached: bool)
    requires Sustained(rule, log + [entry], j, breached) && j < |log|
    ensures Sustained(rule, log, j, breached)
    ensures log[|log| - 1].time < entry.time <= log[|log| - 1].time + MAXIMUM_GAP
  {
    var all := log + [entry];
    assert InTime(all, |log|);
    forall k | j <= k < |log| ensures log[k].value.Some? && Bad(rule, log[k].value.value) == breached && (k > j ==> InTime(log, k)) {
      assert all[k] == log[k];
      if k > j { assert InTime(all, k); }
    }
  }

  // The clock that an evaluation shows, before the incident changes, covers every stretch of the longer log.
  lemma ClockCovers(h: History, input: Input, j: nat, breached: bool)
    requires Tracked(h) && Unmissed(h) && Evaluates(h, input) && h.rule.active.None? == breached
    requires Sustained(h.rule, h.log + [Entry(input.time, input.value)], j, breached)
    ensures var rule := Evaluated(h.rule, input.value, input.time).rule;
            var since := if breached then rule.breachSince else rule.recoverySince;
            since.Some? && since.value <= (h.log + [Entry(input.time, input.value)])[j].time
  {
    var entry := Entry(input.time, input.value);
    assert (h.log + [entry])[|h.log|] == entry && input.value.Some? && Bad(h.rule, input.value.value) == breached;
    if j < |h.log| {
      Shortened(h.rule, h.log, entry, j, breached);
    } else if h.rule.breachSince.Some? || h.rule.recoverySince.Some? {
      ClockIsPast(h);
    }
  }

  lemma ClockIsPast(h: History)
    requires Tracked(h)
    ensures h.rule.breachSince.Some? ==> h.rule.lastEvaluated.Some? && h.rule.breachSince.value <= h.rule.lastEvaluated.value
    ensures h.rule.recoverySince.Some? ==> h.rule.lastEvaluated.Some? && h.rule.recoverySince.value <= h.rule.lastEvaluated.value
  {
    if h.rule.breachSince.Some? {
      var i :| 0 <= i < |h.log| && h.log[i].time == h.rule.breachSince.value && Sustained(h.rule, h.log, i, true);
      TimesGrow(h.rule, h.log, i, |h.log| - 1, true);
    }
    if h.rule.recoverySince.Some? {
      var i :| 0 <= i < |h.log| && h.log[i].time == h.rule.recoverySince.value && Sustained(h.rule, h.log, i, false);
      TimesGrow(h.rule, h.log, i, |h.log| - 1, false);
    }
  }

  lemma {:induction false} TimesGrow(rule: Rule, log: seq<Entry>, i: nat, k: nat, breached: bool)
    requires Sustained(rule, log, i, breached) && i <= k < |log|
    ensures log[i].time <= log[k].time
    decreases k
  {
    if i < k {
      TimesGrow(rule, log, i, k - 1, breached);
      assert InTime(log, k);
    }
  }

  // What an evaluation decides, from its clock alone.
  lemma EffectByClock(rule: Rule, value: Option<real>, now: int)
    requires rule.breachSince.Some? ==> rule.active.None?
    requires rule.recoverySince.Some? ==> rule.active.Some?
    ensures var verdict := Evaluated(rule, value, now);
            && (verdict.effect.Opens? <==> rule.active.None? && verdict.rule.breachSince.Some? && now - verdict.rule.breachSince.value >= SUSTAIN)
            && (verdict.effect.Closes? <==> rule.active.Some? && verdict.rule.recoverySince.Some? && now - verdict.rule.recoverySince.value >= SUSTAIN)
            && (!verdict.effect.Nothing? ==> value == Some(verdict.effect.value))
  {
  }

  // An evaluation opens, or closes, exactly at the end of a long stretch.
  lemma EffectByLog(h: History, input: Input)
    requires Tracked(h) && Unmissed(h) && Evaluates(h, input)
    ensures var log := h.log + [Entry(input.time, input.value)];
            var effect := Evaluated(h.rule, input.value, input.time).effect;
            && (effect.Opens? <==> h.rule.active.None? && exists i: nat :: LongStretch(h.rule, log, i, true))
            && (effect.Closes? <==> h.rule.active.Some? && exists i: nat :: LongStretch(h.rule, log, i, false))
            && (!effect.Nothing? ==> input.value == Some(effect.value))
  {
    hide Evaluated, Sustained, SustainedSince, FarApart, Spaced;
    ClockSustained(h, input);
    EffectByClock(h.rule, input.value, input.time);
    var verdict := Evaluated(h.rule, input.value, input.time);
    var log := h.log + [Entry(input.time, input.value)];
    if verdict.effect.Opens? { var i := Span(h.rule, log, verdict.rule.breachSince.value, true); }
    if verdict.effect.Closes? { var i := Span(h.rule, log, verdict.rule.recoverySince.value, false); }
    if h.rule.active.None? {
      if i: nat :| LongStretch(h.rule, log, i, true) { ClockCovers(h, input, i, true); }
    } else {
      if i: nat :| LongStretch(h.rule, log, i, false) { ClockCovers(h, input, i, false); }
    }
  }

  // Unless the incident changes, the evaluation's clocks stay; it changes only at the opposite kind of evaluation.
  lemma IncidentOrClocks(rule: Rule, value: Option<real>, now: int, incident: nat)
    ensures var verdict := Evaluated(rule, value, now);
            var next := Settled(verdict, incident);
            && next.metric == rule.metric && next.threshold == rule.threshold
            && (next.active.None? == rule.active.None? ==>
                  next.breachSince == verdict.rule.breachSince && next.recoverySince == verdict.rule.recoverySince)
            && (next.active.None? != rule.active.None? ==> value.Some? && Bad(rule, value.value) == rule.active.None?)
  {
  }

  lemma StepKeepsUnmissed(h: History, input: Input)
    requires Tracked(h) && Unmissed(h)
    ensures Unmissed(Step(h, input))
  {
    hide SustainedSince, FarApart, Spaced, Evaluated, Settled, Bad;
    if Evaluates(h, input) {
      IncidentOrClocks(h.rule, input.value, input.time, input.incident);
      var next := Step(h, input);
      var breached := next.rule.active.None?;
      forall j: nat | Sustained(next.rule, next.log, j, breached)
        ensures var since := if breached then next.rule.breachSince else next.rule.recoverySince; since.Some? && since.value <= next.log[j].time
      {
        SameKind(h.rule, next.rule, next.log, j, breached);
        assert next.log[|h.log|] == Entry(input.time, input.value);
        if h.rule.active.None? == breached { ClockCovers(h, input, j, breached); }
      }
    }
  }

  lemma SameKind(a: Rule, b: Rule, log: seq<Entry>, j: nat, breached: bool)
    requires a.metric == b.metric && a.threshold == b.threshold && Sustained(b, log, j, breached)
    ensures Sustained(a, log, j, breached)
  {
  }

  lemma {:induction false} RunKeepsUnmissed(h: History, inputs: seq<Input>)
    requires Tracked(h) && Unmissed(h)
    ensures Tracked(After(h, inputs)) && Unmissed(After(h, inputs))
    decreases |inputs|
  {
    if inputs != [] {
      hide Tracked, Unmissed, Step;
      StepKeepsTracked(h, inputs[0]);
      StepKeepsUnmissed(h, inputs[0]);
      RunKeepsUnmissed(Step(h, inputs[0]), inputs[1..]);
    }
  }

  // In every run: an incident opens with the first evaluation that completes a sustained breach, and closes with the
  // first that completes a sustained recovery, at that evaluation's value, and neither happens otherwise.
  lemma SustainedBothWays(start: History, inputs: seq<Input>, input: Input)
    requires Fresh(start) && Evaluates(After(start, inputs), input)
    ensures var h := After(start, inputs);
            var log := h.log + [Entry(input.time, input.value)];
            var effect := Evaluated(h.rule, input.value, input.time).effect;
            && (effect.Opens? <==> h.rule.active.None? && exists i: nat :: LongStretch(h.rule, log, i, true))
            && (effect.Closes? <==> h.rule.active.Some? && exists i: nat :: LongStretch(h.rule, log, i, false))
            && (!effect.Nothing? ==> input.value == Some(effect.value))
  {
    hide Evaluated, LongStretch;
    RunKeepsUnmissed(start, inputs);
    EffectByLog(After(start, inputs), input);
  }

  // The rule shows its last evaluation.
  ghost predicate Shows(h: History) {
    h.log != [] ==>
      var last := h.log[|h.log| - 1];
      && h.rule.lastEvaluated == Some(last.time) && h.rule.lastValue == last.value
      && h.rule.lastAttempt.Some? && h.rule.lastAttempt.value >= last.time
      && h.rule.status == if last.value.None? then Unknown else if Bad(h.rule, last.value.value) then Breaching else Healthy
  }

  lemma EvaluationShows(rule: Rule, value: Option<real>, now: int, incident: nat)
    ensures var next := Settled(Evaluated(rule, value, now), incident);
            && next.metric == rule.metric && next.threshold == rule.threshold
            && next.lastEvaluated == Some(now) && next.lastValue == value
            && next.status == if value.None? then Unknown else if Bad(rule, value.value) then Breaching else Healthy
  {
  }

  lemma EvaluatedIsAttempt(rule: Rule, value: Option<real>, now: int)
    ensures Evaluated(rule, value, now).rule.lastAttempt == Later(rule.lastAttempt, now)
  {
    hide Breaches, Later;
  }

  lemma EvaluationIsAttempt(rule: Rule, value: Option<real>, now: int, incident: nat)
    ensures Settled(Evaluated(rule, value, now), incident).lastAttempt ==
            if rule.lastAttempt.Some? && rule.lastAttempt.value > now then rule.lastAttempt else Some(now)
  {
    hide Evaluated;
    EvaluatedIsAttempt(rule, value, now);
  }

  lemma {:induction false} RunShowsLast(h: History, inputs: seq<Input>)
    requires Shows(h)
    ensures Shows(After(h, inputs))
    decreases |inputs|
  {
    if inputs != [] {
      hide Evaluated, Settled;
      EvaluationShows(h.rule, inputs[0].value, inputs[0].time, inputs[0].incident);
      EvaluationIsAttempt(h.rule, inputs[0].value, inputs[0].time, inputs[0].incident);
      RunShowsLast(Step(h, inputs[0]), inputs[1..]);
    }
  }

  // And so any two openings under one revision are more than four minutes apart.
  lemma OpeningsFarApart(start: History, inputs: seq<Input>, i: nat, j: nat)
    requires Fresh(start) && i < j < |After(start, inputs).openings|
    ensures After(start, inputs).openings[j] - After(start, inputs).openings[i] > 2 * SUSTAIN
  {
    RunKeepsTracked(start, inputs);
  }
}
