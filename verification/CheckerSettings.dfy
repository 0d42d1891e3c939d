// Workspace checker settings: validation, per-route resolution, and the reading
// of profiles stored by the earlier per-protocol format.
module CheckerSettings {
  import opened Options

  type uint8 = x: int | 0 <= x < 0x100
  type uint16 = x: int | 0 <= x < 0x1_0000

  datatype Protocol = Http | Https | Socks4 | Socks5 | OtherProtocol(name: string)
  datatype Transport = Tcp | Quic | Http3 | OtherTransport(name: string)
  datatype Mode = Replace | Add | Remove | OtherMode(name: string)

  datatype Profile = Profile(protocols: seq<Protocol>, transport: Transport, timeout: uint16, retries: uint8)

  datatype Rule = Rule(tag: nat, mode: Mode, protocols: seq<Protocol>,
                       transport: Option<Transport>, timeout: Option<uint16>, retries: Option<uint8>)

  // Rules are ordered highest priority first. `legacy` marks a profile read from the earlier format.
  datatype Settings = Settings(defaults: Profile, rules: seq<Rule>, legacy: bool)

  // The four protocol flags of the source's bit mask, lowest bit first.
  datatype Mask = Mask(http: bool, https: bool, socks4: bool, socks5: bool)

  // The compiled settings of one protocol of one route.
  datatype Check = Check(enabled: bool, transport: Transport, timeout: uint16, retries: uint8)

  // What resolution carries from rule to rule.
  datatype Selection = Selection(mask: Mask, transport: Transport, timeout: uint16, retries: uint8)

  const EMPTY_MASK := Mask(false, false, false, false)

  function Bit(protocol: Protocol): Mask {
    Mask(protocol == Http, protocol == Https, protocol == Socks4, protocol == Socks5)
  }

  function Union(a: Mask, b: Mask): Mask {
    Mask(a.http || b.http, a.https || b.https, a.socks4 || b.socks4, a.socks5 || b.socks5)
  }

  function Without(a: Mask, b: Mask): Mask {
    Mask(a.http && !b.http, a.https && !b.https, a.socks4 && !b.socks4, a.socks5 && !b.socks5)
  }

  function Enabled(mask: Mask, index: nat): bool
    requires index < 4
  {
    if index == 0 then mask.http else if index == 1 then mask.https else if index == 2 then mask.socks4 else mask.socks5
  }

  // Every name is supported and none is listed twice.
  ghost predicate KnownProtocols(protocols: seq<Protocol>) {
    && (forall i | 0 <= i < |protocols| :: !protocols[i].OtherProtocol?)
    && (forall i, j | 0 <= i < j < |protocols| :: protocols[i] != protocols[j])
  }

  // The mask of a list of names; meaningful when the names are known.
  function MaskOf(protocols: seq<Protocol>): Mask {
    Mask(Http in protocols, Https in protocols, Socks4 in protocols, Socks5 in protocols)
  }

  method ProtocolMask(protocols: seq<Protocol>) returns (mask: Mask, ok: bool)
    ensures ok <==> KnownProtocols(protocols)
    ensures mask == if ok then MaskOf(protocols) else EMPTY_MASK
  {
    mask, ok := EMPTY_MASK, true;
    for n := 0 to |protocols|
      invariant KnownProtocols(protocols[..n])
      invariant mask == MaskOf(protocols[..n])
    {
      var protocol := protocols[n];
      assert protocols[..n + 1] == protocols[..n] + [protocol];
      if protocol.OtherProtocol? {
        assert !KnownProtocols(protocols);
        return EMPTY_MASK, false;
      }
      var bit := Bit(protocol);
      if Without(mask, bit) != mask {
        assert protocol in protocols[..n];
        assert !KnownProtocols(protocols);
        return EMPTY_MASK, false;
      }
      mask := Union(mask, bit);
    }
    assert protocols[..|protocols|] == protocols;
  }

  // ---- Resolution -------------------------------------------------------------------------------

  // Resolution ignores the mask error and reads an unknown list as the empty mask.
  ghost function SelectedMask(protocols: seq<Protocol>): Mask {
    if KnownProtocols(protocols) then MaskOf(protocols) else EMPTY_MASK
  }

  ghost function Apply(rule: Rule, s: Selection): Selection {
    var selected := SelectedMask(rule.protocols);
    if rule.mode == Remove then
      s.(mask := Without(s.mask, selected))
    else
      Selection(
        if rule.mode == Replace then selected else if rule.mode == Add then Union(s.mask, selected) else s.mask,
        if rule.transport.Some? then rule.transport.value else s.transport,
        if rule.timeout.Some? then rule.timeout.value else s.timeout,
        if rule.retries.Some? then rule.retries.value else s.retries)
  }

  ghost function Initial(defaults: Profile): Selection {
    Selection(SelectedMask(defaults.protocols), defaults.transport, defaults.timeout, defaults.retries)
  }

  // The selection after the rules at and above index n that carry one of the tags, lowest priority first.
  ghost function ResolveFrom(settings: Settings, tags: set<nat>, n: nat): Selection
    requires n <= |settings.rules|
    decreases |settings.rules| - n
  {
    if n == |settings.rules| then Initial(settings.defaults)
    else
      var rest := ResolveFrom(settings, tags, n + 1);
      if settings.rules[n].tag in tags then Apply(settings.rules[n], rest) else rest
  }

  function Expand(s: Selection): seq<Check> {
    seq(4, i requires 0 <= i < 4 => Check(Enabled(s.mask, i), s.transport, s.timeout, s.retries))
  }

  ghost function Resolve(settings: Settings, tags: set<nat>): seq<Check> {
    Expand(ResolveFrom(settings, tags, 0))
  }

  // ---- What the rules say, read from the highest priority down ------------------------------------

  const PROTOCOLS := [Http, Https, Socks4, Socks5]

  // A list that names an unknown protocol, or a protocol twice, selects nothing.
  ghost predicate Selects(protocols: seq<Protocol>, p: Protocol) {
    KnownProtocols(protocols) && p in protocols
  }

  ghost predicate Decides(rule: Rule, p: Protocol) {
    rule.mode == Replace || ((rule.mode == Add || rule.mode == Remove) && Selects(rule.protocols, p))
  }

  // The first rule from n on that the tags hold and that qualifies.
  ghost predicate IsFirst(rules: seq<Rule>, tags: set<nat>, qualifies: Rule -> bool, n: nat, k: int) {
    && n <= k < |rules| && rules[k].tag in tags && qualifies(rules[k])
    && forall j | n <= j < k && rules[j].tag in tags :: !qualifies(rules[j])
  }

  ghost predicate HasNone(rules: seq<Rule>, tags: set<nat>, qualifies: Rule -> bool, n: nat) {
    forall j | n <= j < |rules| && rules[j].tag in tags :: !qualifies(rules[j])
  }

  ghost function Deciding(p: Protocol): Rule -> bool { (rule: Rule) => Decides(rule, p) }

  const SETS_TRANSPORT := (rule: Rule) => rule.mode != Remove && rule.transport.Some?
  const SETS_TIMEOUT := (rule: Rule) => rule.mode != Remove && rule.timeout.Some?
  const SETS_RETRIES := (rule: Rule) => rule.mode != Remove && rule.retries.Some?

  // The first held rule that replaces, or that lists the protocol, decides whether the protocol is checked.
  ghost predicate ProtocolAsRuled(settings: Settings, tags: set<nat>, n: nat, p: Protocol, enabled: bool) {
    && (HasNone(settings.rules, tags, Deciding(p), n) ==> (enabled <==> Selects(settings.defaults.protocols, p)))
    && forall k | IsFirst(settings.rules, tags, Deciding(p), n, k) ::
         enabled <==> settings.rules[k].mode != Remove && Selects(settings.rules[k].protocols, p)
  }

  // The first held rule that sets a field, and is no remove rule, decides the field.
  ghost predicate FieldsAsRuled(settings: Settings, tags: set<nat>, n: nat, transport: Transport, timeout: uint16, retries: uint8) {
    && (HasNone(settings.rules, tags, SETS_TRANSPORT, n) ==> transport == settings.defaults.transport)
    && (forall k | IsFirst(settings.rules, tags, SETS_TRANSPORT, n, k) :: settings.rules[k].transport == Some(transport))
    && (HasNone(settings.rules, tags, SETS_TIMEOUT, n) ==> timeout == settings.defaults.timeout)
    && (forall k | IsFirst(settings.rules, tags, SETS_TIMEOUT, n, k) :: settings.rules[k].timeout == Some(timeout))
    && (HasNone(settings.rules, tags, SETS_RETRIES, n) ==> retries == settings.defaults.retries)
    && (forall k | IsFirst(settings.rules, tags, SETS_RETRIES, n, k) :: settings.rules[k].retries == Some(retries))
  }

  // One protocol after the other, and the same fields for all of them.
  ghost predicate AsRuled(settings: Settings, tags: set<nat>, plan: seq<Check>) {
    |plan| == 4 && forall i | 0 <= i < 4 ::
      && ProtocolAsRuled(settings, tags, 0, PROTOCOLS[i], plan[i].enabled)
      && FieldsAsRuled(settings, tags, 0, plan[i].transport, plan[i].timeout, plan[i].retries)
  }

  // Either no held rule qualifies, or there is a first one.
  lemma FirstOrNone(rules: seq<Rule>, tags: set<nat>, qualifies: Rule -> bool, n: nat)
    requires n <= |rules|
    ensures HasNone(rules, tags, qualifies, n) <==> !exists k :: IsFirst(rules, tags, qualifies, n, k)
    decreases |rules| - n
  {
    if n < |rules| {
      var rest := n + 1;
      FirstOrNone(rules, tags, qualifies, rest);
      if rules[n].tag in tags && qualifies(rules[n]) {
        assert IsFirst(rules, tags, qualifies, n, n);
      } else if k :| IsFirst(rules, tags, qualifies, rest, k) {
        assert IsFirst(rules, tags, qualifies, n, k);
      }
    }
  }

  // Passing a rule that is not held, or does not qualify, leaves the first one where it is.
  lemma FirstBehind(rules: seq<Rule>, tags: set<nat>, qualifies: Rule -> bool, n: nat)
    requires n < |rules|
    ensures var here := rules[n].tag in tags && qualifies(rules[n]);
            && (HasNone(rules, tags, qualifies, n) <==> !here && HasNone(rules, tags, qualifies, n + 1))
            && forall k :: IsFirst(rules, tags, qualifies, n, k) <==> if here then k == n else IsFirst(rules, tags, qualifies, n + 1, k)
  {
  }

  function BitOf(mask: Mask, p: Protocol): bool {
    match p
    case Http => mask.http
    case Https => mask.https
    case Socks4 => mask.socks4
    case Socks5 => mask.socks5
    case OtherProtocol(_) => false
  }

  lemma AppliedBit(rule: Rule, s: Selection, p: Protocol)
    requires !p.OtherProtocol?
    ensures BitOf(Apply(rule, s).mask, p) ==
            if Deciding(p)(rule) then rule.mode != Remove && Selects(rule.protocols, p) else BitOf(s.mask, p)
  {
  }

  lemma InitialBit(settings: Settings, tags: set<nat>, p: Protocol)
    requires !p.OtherProtocol?
    ensures ProtocolAsRuled(settings, tags, |settings.rules|, p, BitOf(Initial(settings.defaults).mask, p))
  {
    hide Decides;
  }

  lemma {:induction false} ProtocolFollowsRules(settings: Settings, tags: set<nat>, n: nat, p: Protocol)
    requires n <= |settings.rules| && !p.OtherProtocol?
    ensures ProtocolAsRuled(settings, tags, n, p, BitOf(ResolveFrom(settings, tags, n).mask, p))
    decreases |settings.rules| - n
  {
    hide IsFirst, HasNone, Apply, Deciding, Selects, BitOf, Initial;
    if n < |settings.rules| {
      ProtocolFollowsRules(settings, tags, n + 1, p);
      AppliedBit(settings.rules[n], ResolveFrom(settings, tags, n + 1), p);
      FirstBehind(settings.rules, tags, Deciding(p), n);
    } else {
      InitialBit(settings, tags, p);
    }
  }

  lemma {:induction false} FieldsFollowRules(settings: Settings, tags: set<nat>, n: nat)
    requires n <= |settings.rules|
    ensures var s := ResolveFrom(settings, tags, n); FieldsAsRuled(settings, tags, n, s.transport, s.timeout, s.retries)
    decreases |settings.rules| - n
  {
    if n < |settings.rules| {
      hide IsFirst, HasNone;
      FieldsFollowRules(settings, tags, n + 1);
      FirstBehind(settings.rules, tags, SETS_TRANSPORT, n);
      FirstBehind(settings.rules, tags, SETS_TIMEOUT, n);
      FirstBehind(settings.rules, tags, SETS_RETRIES, n);
    }
  }

  lemma ResolveAsRuled(settings: Settings, tags: set<nat>)
    ensures AsRuled(settings, tags, Resolve(settings, tags))
  {
    hide ProtocolAsRuled, FieldsAsRuled;
    forall i | 0 <= i < 4 { ProtocolFollowsRules(settings, tags, 0, PROTOCOLS[i]); }
    FieldsFollowRules(settings, tags, 0);
  }

  // The rules say it completely: no other plan is as ruled.
  lemma AsRuledIsUnique(settings: Settings, tags: set<nat>, a: seq<Check>, b: seq<Check>)
    requires AsRuled(settings, tags, a) && AsRuled(settings, tags, b)
    ensures a == b
  {
    forall i | 0 <= i < 4 ensures a[i] == b[i] {
      FirstOrNone(settings.rules, tags, Deciding(PROTOCOLS[i]), 0);
      FirstOrNone(settings.rules, tags, SETS_TRANSPORT, 0);
      FirstOrNone(settings.rules, tags, SETS_TIMEOUT, 0);
      FirstOrNone(settings.rules, tags, SETS_RETRIES, 0);
    }
  }

  method ResolveCheckerSettings(settings: Settings, tags: set<nat>) returns (plan: seq<Check>)
    ensures plan == Resolve(settings, tags) && AsRuled(settings, tags, plan)
  {
    ResolveAsRuled(settings, tags);
    var transport, timeout, retries := settings.defaults.transport, settings.defaults.timeout, settings.defaults.retries;
    var mask, _ := ProtocolMask(settings.defaults.protocols);
    var n := |settings.rules|;
    while n > 0
      invariant 0 <= n <= |settings.rules|
      invariant Selection(mask, transport, timeout, retries) == ResolveFrom(settings, tags, n)
    {
      n := n - 1;
      var rule := settings.rules[n];
      if rule.tag !in tags { continue; }
      var selected, _ := ProtocolMask(rule.protocols);
      match rule.mode {
        case Replace => mask := selected;
        case Add => mask := Union(mask, selected);
        case Remove => mask := Without(mask, selected); continue;
        case OtherMode(_) =>
      }
      if rule.transport.Some? { transport := rule.transport.value; }
      if rule.timeout.Some? { timeout := rule.timeout.value; }
      if rule.retries.Some? { retries := rule.retries.value; }
    }
    plan := Expand(Selection(mask, transport, timeout, retries));
  }

  function RuleTags(rules: seq<Rule>): set<nat> {
    set i | 0 <= i < |rules| :: rules[i].tag
  }

  // Only the tags that carry a rule matter.
  lemma {:induction false} ResolveUsesRuleTags(settings: Settings, a: set<nat>, b: set<nat>, n: nat)
    requires n <= |settings.rules|
    requires forall i | n <= i < |settings.rules| :: settings.rules[i].tag in a <==> settings.rules[i].tag in b
    ensures ResolveFrom(settings, a, n) == ResolveFrom(settings, b, n)
    decreases |settings.rules| - n
  {
    if n < |settings.rules| {
      ResolveUsesRuleTags(settings, a, b, n + 1);
    }
  }

  // ---- Validation -------------------------------------------------------------------------------

  datatype Error = BadTimeout | BadTransport | BadProtocols | BadTags | BadMode | RemoveWithFields | SocksOffTcp

  predicate KnownTransport(transport: Transport) { !transport.OtherTransport? }

  ghost predicate DistinctTags(rules: seq<Rule>) {
    forall i, j | 0 <= i < j < |rules| :: rules[i].tag != rules[j].tag
  }

  ghost predicate WellFormedRule(rule: Rule) {
    && rule.tag != 0
    && !rule.mode.OtherMode?
    && KnownProtocols(rule.protocols)
    && (rule.mode == Remove ==> rule.transport.None? && rule.timeout.None? && rule.retries.None?)
    && (rule.timeout.Some? ==> rule.timeout.value != 0)
    && (rule.transport.Some? ==> KnownTransport(rule.transport.value))
  }

  ghost predicate WellFormedRules(rules: seq<Rule>) {
    && DistinctTags(rules)
    && forall i | 0 <= i < |rules| :: WellFormedRule(rules[i])
  }

  ghost predicate WellFormed(settings: Settings) {
    && settings.defaults.timeout != 0
    && KnownTransport(settings.defaults.transport)
    && KnownProtocols(settings.defaults.protocols)
    && WellFormedRules(settings.rules)
  }

  // SOCKS needs TCP.
  predicate SupportedPlan(plan: seq<Check>)
    requires |plan| == 4
  {
    forall i | 2 <= i < 4 :: plan[i].enabled ==> plan[i].transport == Tcp
  }

  // The meaning of a valid configuration: no route can be given an unsupported plan, whatever its tags.
  ghost predicate Valid(settings: Settings) {
    WellFormed(settings) && forall tags: set<nat> :: SupportedPlan(Resolve(settings, tags))
  }

  // The two parts of a selection that validation follows.
  datatype State = State(mask: Mask, transport: Transport)

  function Supported(state: State): bool {
    !(state.mask.socks4 || state.mask.socks5) || state.transport == Tcp
  }

  ghost function Seen(s: Selection): State { State(s.mask, s.transport) }

  // Exactly the states that some tag set reaches after the rules at and above n.
  ghost predicate ReachableStates(settings: Settings, n: nat, states: set<State>)
    requires n <= |settings.rules|
  {
    && (forall tags: set<nat> :: Seen(ResolveFrom(settings, tags, n)) in states)
    && (forall state | state in states :: exists tags: set<nat> :: Seen(ResolveFrom(settings, tags, n)) == state)
  }

  ghost function StepState(rule: Rule, state: State): State {
    State(
      if rule.mode == Replace then SelectedMask(rule.protocols)
      else if rule.mode == Add then Union(state.mask, SelectedMask(rule.protocols))
      else if rule.mode == Remove then Without(state.mask, SelectedMask(rule.protocols))
      else state.mask,
      if rule.transport.Some? then rule.transport.value else state.transport)
  }

  // One rule extends the reachable states by its effect on each of them: a route need not carry
  // the tag, and because tags are distinct, carrying it is independent of the earlier choices.
  lemma ReachableStep(settings: Settings, n: nat, states: set<State>, next: set<State>)
    requires n < |settings.rules| && DistinctTags(settings.rules[n..])
    requires settings.rules[n].mode == Remove ==> settings.rules[n].transport.None?
    requires ReachableStates(settings, n + 1, states)
    requires next == states + StepStates(settings.rules[n], states)
    ensures ReachableStates(settings, n, next)
  {
    var rule := settings.rules[n];
    forall state | state in next
      ensures exists tags: set<nat> :: Seen(ResolveFrom(settings, tags, n)) == state
    {
      var before :| before in states && (state == before || state == StepState(rule, before));
      var tags: set<nat> :| Seen(ResolveFrom(settings, tags, n + 1)) == before;
      var chosen := if state == before then tags - {rule.tag} else tags + {rule.tag};
      forall i | n + 1 <= i < |settings.rules| ensures settings.rules[i].tag != rule.tag {
        assert settings.rules[n..][0].tag != settings.rules[n..][i - n].tag;
      }
      ResolveUsesRuleTags(settings, tags, chosen, n + 1);
      assert Seen(ResolveFrom(settings, chosen, n)) == state;
    }
    forall tags: set<nat> ensures Seen(ResolveFrom(settings, tags, n)) in next {
      assert Seen(ResolveFrom(settings, tags, n + 1)) in states;
    }
  }

  // Four flags and three transports.
  lemma AtMostFortyEight(states: set<State>)
    requires forall state | state in states :: KnownTransport(state.transport)
    ensures |states| <= 48
  {
    var codes := set state | state in states :: Code(state);
    CodesCount(states);
    BoundedCount(codes, 48);
  }

  function Code(state: State): nat
    requires KnownTransport(state.transport)
    ensures Code(state) < 48
  {
    (if state.mask.http then 1 else 0) + (if state.mask.https then 2 else 0) +
    (if state.mask.socks4 then 4 else 0) + (if state.mask.socks5 then 8 else 0) +
    (if state.transport == Tcp then 0 else if state.transport == Quic then 16 else 32)
  }

  lemma {:induction false} CodesCount(states: set<State>)
    requires forall state | state in states :: KnownTransport(state.transport)
    ensures |states| == |set state | state in states :: Code(state)|
  {
    if states != {} {
      var state :| state in states;
      var rest := states - {state};
      CodesCount(rest);
      var codes := set other | other in rest :: Code(other);
      assert Code(state) !in codes;
      assert (set other | other in states :: Code(other)) == codes + {Code(state)};
    }
  }

  lemma {:induction false} BoundedCount(s: set<nat>, n: nat)
    requires forall x | x in s :: x < n
    ensures |s| <= n
  {
    if n == 0 {
      assert s == {};
    } else {
      BoundedCount(s - {n - 1}, n - 1);
    }
  }

  ghost function StepStates(rule: Rule, states: set<State>): set<State> {
    set state | state in states :: StepState(rule, state)
  }

  lemma StepStatesAdd(rule: Rule, states: set<State>, state: State)
    ensures StepStates(rule, states + {state}) == StepStates(rule, states) + {StepState(rule, state)}
  {
  }

  method Stepped(rule: Rule, selected: Mask, state: State) returns (changed: State)
    requires selected == SelectedMask(rule.protocols)
    ensures changed == StepState(rule, state)
  {
    changed := state;
    if rule.mode == Replace { changed := changed.(mask := selected); }
    if rule.mode == Add { changed := changed.(mask := Union(changed.mask, selected)); }
    if rule.mode == Remove { changed := changed.(mask := Without(changed.mask, selected)); }
    if rule.transport.Some? { changed := changed.(transport := rule.transport.value); }
  }

  method ExtendStates(rule: Rule, selected: Mask, states: set<State>) returns (next: set<State>)
    requires selected == SelectedMask(rule.protocols)
    ensures next == states + StepStates(rule, states)
  {
    next := {};
    var remaining := states;
    ghost var done: set<State> := {};
    while remaining != {}
      invariant done + remaining == states
      invariant next == done + StepStates(rule, done)
      decreases |remaining|
    {
      var state :| state in remaining;
      remaining := remaining - {state};
      var changed := Stepped(rule, selected, state);
      StepStatesAdd(rule, done, state);
      done := done + {state};
      next := next + {state, changed};
    }
  }

  // All states that some tag set reaches, for a profile whose transports need not be known.
  method ReachedStates(settings: Settings) returns (states: set<State>)
    requires DistinctTags(settings.rules)
    requires forall rule | rule in settings.rules && rule.mode == Remove :: rule.transport.None?
    ensures ReachableStates(settings, 0, states)
  {
    var mask, _ := ProtocolMask(settings.defaults.protocols);
    states := {State(mask, settings.defaults.transport)};
    var n := |settings.rules|;
    assert Seen(ResolveFrom(settings, {}, n)) == State(mask, settings.defaults.transport);
    while n > 0
      invariant 0 <= n <= |settings.rules| && ReachableStates(settings, n, states)
    {
      n := n - 1;
      var selected, _ := ProtocolMask(settings.rules[n].protocols);
      var next := ExtendStates(settings.rules[n], selected, states);
      ReachableStep(settings, n, states, next);
      states := next;
    }
  }

  // What each error complains about, in terms of the profile, its rules and what they say.
  ghost predicate Faulty(settings: Settings, error: Error) {
    var defaults, rules := settings.defaults, settings.rules;
    match error
    case BadTimeout => defaults.timeout == 0 || exists i :: 0 <= i < |rules| && rules[i].timeout == Some(0)
    case BadTransport =>
      defaults.transport.OtherTransport? || exists i :: 0 <= i < |rules| && rules[i].transport.Some? && rules[i].transport.value.OtherTransport?
    case BadProtocols =>
      !KnownProtocols(defaults.protocols) || exists i :: 0 <= i < |rules| && !KnownProtocols(rules[i].protocols)
    case BadTags =>
      (exists i :: 0 <= i < |rules| && rules[i].tag == 0) || (exists i, j :: 0 <= i < j < |rules| && rules[i].tag == rules[j].tag)
    case BadMode => exists i :: 0 <= i < |rules| && rules[i].mode.OtherMode?
    case RemoveWithFields =>
      exists i :: 0 <= i < |rules| && rules[i].mode == Remove && (rules[i].transport.Some? || rules[i].timeout.Some? || rules[i].retries.Some?)
    case SocksOffTcp => exists tags: set<nat>, plan :: AsRuled(settings, tags, plan) && ChecksSocksOffTcp(plan)
  }

  ghost predicate ChecksSocksOffTcp(plan: seq<Check>) {
    |plan| == 4 && ((plan[2].enabled && plan[2].transport != Tcp) || (plan[3].enabled && plan[3].transport != Tcp))
  }

  lemma SocksFault(settings: Settings)
    ensures Faulty(settings, SocksOffTcp) <==> exists tags: set<nat> :: !SupportedPlan(Resolve(settings, tags))
  {
    hide AsRuled;
    if tags: set<nat> :| !SupportedPlan(Resolve(settings, tags)) {
      ResolveAsRuled(settings, tags);
      assert ChecksSocksOffTcp(Resolve(settings, tags));
    }
    if tags: set<nat>, plan :| AsRuled(settings, tags, plan) && ChecksSocksOffTcp(plan) {
      ResolveAsRuled(settings, tags);
      AsRuledIsUnique(settings, tags, plan, Resolve(settings, tags));
    }
  }

  // A profile is valid exactly when nothing is wrong with it.
  lemma ValidIsFaultless(settings: Settings)
    ensures Valid(settings) <==> forall error :: !Faulty(settings, error)
  {
    hide KnownProtocols, SupportedPlan, Resolve, AsRuled;
    SocksFault(settings);
    if WellFormed(settings) {
      WellFormedIsFaultless(settings);
    } else {
      IllFormedIsFaulty(settings);
    }
  }

  lemma WellFormedIsFaultless(settings: Settings)
    requires WellFormed(settings)
    ensures forall error :: error != SocksOffTcp ==> !Faulty(settings, error)
  {
    hide KnownProtocols, AsRuled;
  }

  lemma IllFormedIsFaulty(settings: Settings)
    requires !WellFormed(settings)
    ensures exists error :: Faulty(settings, error)
  {
    hide KnownProtocols, AsRuled;
    if settings.defaults.timeout == 0 {
      assert Faulty(settings, BadTimeout);
    } else if settings.defaults.transport.OtherTransport? {
      assert Faulty(settings, BadTransport);
    } else if !KnownProtocols(settings.defaults.protocols) {
      assert Faulty(settings, BadProtocols);
    } else if !DistinctTags(settings.rules) {
      assert Faulty(settings, BadTags);
    } else {
      var i :| 0 <= i < |settings.rules| && !WellFormedRule(settings.rules[i]);
      IllFormedRule(settings, i);
    }
  }

  lemma IllFormedRule(settings: Settings, i: nat)
    requires i < |settings.rules| && !WellFormedRule(settings.rules[i])
    ensures exists error :: Faulty(settings, error)
  {
    hide KnownProtocols, AsRuled;
    var rule := settings.rules[i];
    if rule.tag == 0 {
      assert Faulty(settings, BadTags);
    } else if rule.mode.OtherMode? {
      assert Faulty(settings, BadMode);
    } else if !KnownProtocols(rule.protocols) {
      assert Faulty(settings, BadProtocols);
    } else if rule.timeout == Some(0) {
      assert Faulty(settings, BadTimeout);
    } else if rule.transport.Some? && rule.transport.value.OtherTransport? {
      assert Faulty(settings, BadTransport);
    } else {
      assert Faulty(settings, RemoveWithFields);
    }
  }

  method ValidateCheckerSettings(value: Option<Settings>) returns (result: Option<Error>)
    ensures value.None? ==> result.None?
    ensures value.Some? ==> (result.None? <==> Valid(value.value))
    ensures value.Some? ==> (result.None? <==> forall error :: !Faulty(value.value, error))
    ensures value.Some? && result.Some? ==> Faulty(value.value, result.value)
    ensures value.Some? ==> (result == Some(SocksOffTcp) <==>
              WellFormed(value.value) && exists tags: set<nat> :: !SupportedPlan(Resolve(value.value, tags)))
  {
    if value.None? { return None; }
    hide WellFormed, Faulty, AsRuled;
    result := FirstFault(value.value);
    ValidIsFaultless(value.value);
    SocksFault(value.value);
    if WellFormed(value.value) { WellFormedIsFaultless(value.value); }
  }

  method FirstFault(settings: Settings) returns (result: Option<Error>)
    ensures result.None? <==> Valid(settings)
    ensures result.Some? ==> Faulty(settings, result.value)
    ensures result == Some(SocksOffTcp) ==> WellFormed(settings)
  {
    hide AsRuled, Resolve, KnownProtocols;
    if settings.defaults.timeout == 0 { return Some(BadTimeout); }
    if !KnownTransport(settings.defaults.transport) { return Some(BadTransport); }
    var mask, ok := ProtocolMask(settings.defaults.protocols);
    if !ok { return Some(BadProtocols); }
    var states := {State(mask, settings.defaults.transport)};
    var seen: set<nat> := {};
    var n := |settings.rules|;
    assert ReachableStates(settings, n, states) by {
      assert Seen(ResolveFrom(settings, {}, n)) == State(mask, settings.defaults.transport);
    }
    while n > 0
      invariant 0 <= n <= |settings.rules|
      invariant WellFormedRules(settings.rules[n..])
      invariant seen == set i | n <= i < |settings.rules| :: settings.rules[i].tag
      invariant ReachableStates(settings, n, states)
      invariant forall state | state in states :: KnownTransport(state.transport)
      invariant |states| <= 48
    {
      n := n - 1;
      var rule := settings.rules[n];
      if rule.tag == 0 || rule.tag in seen { return Some(BadTags); }
      seen := seen + {rule.tag};
      if rule.mode.OtherMode? { return Some(BadMode); }
      var selected, known := ProtocolMask(rule.protocols);
      if !known { return Some(BadProtocols); }
      if rule.mode == Remove && (rule.transport.Some? || rule.timeout.Some? || rule.retries.Some?) {
        return Some(RemoveWithFields);
      }
      if rule.timeout.Some? && rule.timeout.value == 0 { return Some(BadTimeout); }
      if rule.transport.Some? && !KnownTransport(rule.transport.value) { return Some(BadTransport); }
      OneMoreRule(settings.rules, n);
      var next := ExtendStates(rule, selected, states);
      ReachableStep(settings, n, states, next);
      AtMostFortyEight(next);
      states := next;
    }
    assert settings.rules[0..] == settings.rules;
    SocksFault(settings);
    var supported := AllSupported(settings, states);
    result := if supported then None else Some(SocksOffTcp);
  }

  lemma OneMoreRule(rules: seq<Rule>, n: nat)
    requires n < |rules| && WellFormedRules(rules[n + 1..]) && WellFormedRule(rules[n])
    requires rules[n].tag !in set i | n + 1 <= i < |rules| :: rules[i].tag
    ensures WellFormedRules(rules[n..])
  {
    var tail := rules[n + 1..];
    assert rules[n..] == [rules[n]] + tail;
    assert forall k | 0 <= k < |tail| :: tail[k] == rules[n + 1 + k];
  }

  // The states tell whether every tag set resolves to a supported plan.
  method AllSupported(settings: Settings, states: set<State>) returns (supported: bool)
    requires ReachableStates(settings, 0, states)
    ensures supported <==> forall tags: set<nat> :: SupportedPlan(Resolve(settings, tags))
  {
    var remaining := states;
    while remaining != {}
      invariant remaining <= states
      invariant forall state | state in states - remaining :: Supported(state)
      decreases |remaining|
    {
      var state :| state in remaining;
      if !Supported(state) {
        ghost var tags: set<nat> :| Seen(ResolveFrom(settings, tags, 0)) == state;
        SupportedMeans(settings, tags);
        return false;
      }
      remaining := remaining - {state};
    }
    forall tags: set<nat> ensures SupportedPlan(Resolve(settings, tags)) {
      assert Seen(ResolveFrom(settings, tags, 0)) in states;
      SupportedMeans(settings, tags);
    }
    return true;
  }

  lemma SupportedMeans(settings: Settings, tags: set<nat>)
    ensures SupportedPlan(Resolve(settings, tags)) <==> Supported(Seen(ResolveFrom(settings, tags, 0)))
  {
    var s := ResolveFrom(settings, tags, 0);
    var plan := Expand(s);
    assert plan[2].enabled == s.mask.socks4 && plan[3].enabled == s.mask.socks5;
  }

  // ---- Profiles stored by the earlier format ----------------------------------------------------

  function TcpRules(rules: seq<Rule>): seq<Rule> {
    seq(|rules|, i requires 0 <= i < |rules| =>
      if rules[i].transport.Some? then rules[i].(transport := Some(Tcp)) else rules[i])
  }

  function AllTcp(config: Settings): Settings {
    Settings(config.defaults.(transport := Tcp), TcpRules(config.rules), false)
  }

  // A stored profile that is read through its TCP conversion.
  ghost predicate Converted(config: Settings) {
    config.legacy && !Valid(config) && Valid(AllTcp(config))
  }

  // The settings in force for a stored configuration.
  ghost function Effective(config: Settings): Settings {
    if Converted(config) then AllTcp(config) else config
  }

  lemma EffectiveRules(config: Settings)
    ensures RuleTags(Effective(config).rules) == RuleTags(config.rules)
    ensures DistinctTags(config.rules) ==> DistinctTags(Effective(config).rules)
  {
    var a, b := Effective(config).rules, config.rules;
    assert |a| == |b| && forall i | 0 <= i < |a| :: a[i].tag == b[i].tag;
    forall tag ensures tag in RuleTags(a) <==> tag in RuleTags(b) {
      if tag in RuleTags(a) {
        var i :| 0 <= i < |a| && a[i].tag == tag;
        assert b[i].tag == tag;
      }
      if tag in RuleTags(b) {
        var i :| 0 <= i < |b| && b[i].tag == tag;
        assert a[i].tag == tag;
      }
    }
  }

  // A profile is in force as it is stored, unless it is of the earlier format and faulty, and reading all its
  // transports as TCP leaves no fault.
  method DefaultCheckerSettings(config: Settings) returns (settings: Settings)
    ensures settings == Effective(config)
    ensures config.legacy && (exists error :: Faulty(config, error)) && (forall error :: !Faulty(AllTcp(config), error)) ==>
              settings == AllTcp(config)
    ensures !config.legacy || (forall error :: !Faulty(config, error)) || (exists error :: Faulty(AllTcp(config), error)) ==>
              settings == config
  {
    hide Faulty, Valid, AllTcp;
    ValidIsFaultless(config);
    ValidIsFaultless(AllTcp(config));
    if config.legacy {
      var problem := ValidateCheckerSettings(Some(config));
      if problem.Some? {
        var compatible := AllTcp(config);
        problem := ValidateCheckerSettings(Some(compatible));
        if problem.None? { return compatible; }
      }
    }
    return config;
  }

  lemma {:induction false} TcpSelection(config: Settings, tags: set<nat>, n: nat)
    requires n <= |config.rules|
    ensures ResolveFrom(AllTcp(config), tags, n) == ResolveFrom(config, tags, n).(transport := Tcp)
    decreases |config.rules| - n
  {
    if n < |config.rules| {
      TcpSelection(config, tags, n + 1);
    }
  }

  // Reading every transport as TCP repairs any tag combination; only a structural fault survives it.
  lemma TcpConversionRepairs(config: Settings)
    ensures Valid(AllTcp(config)) <==> WellFormed(AllTcp(config))
    ensures WellFormed(config) ==> Valid(AllTcp(config))
  {
    forall tags: set<nat> ensures SupportedPlan(Resolve(AllTcp(config), tags)) {
      TcpSelection(config, tags, 0);
    }
    if WellFormed(config) {
      forall i | 0 <= i < |config.rules| ensures WellFormedRule(TcpRules(config.rules)[i]) {
        assert WellFormedRule(config.rules[i]);
      }
    }
  }

  // The loop form of resolution over a list of rules, for lists that lose a rule.
  ghost function Fold(defaults: Profile, rules: seq<Rule>, tags: set<nat>): Selection {
    if rules == [] then Initial(defaults)
    else
      var rest := Fold(defaults, rules[1..], tags);
      if rules[0].tag in tags then Apply(rules[0], rest) else rest
  }

  lemma {:induction false} FoldIsResolve(settings: Settings, tags: set<nat>, n: nat)
    requires n <= |settings.rules|
    ensures Fold(settings.defaults, settings.rules[n..], tags) == ResolveFrom(settings, tags, n)
    decreases |settings.rules| - n
  {
    if n < |settings.rules| {
      FoldIsResolve(settings, tags, n + 1);
      assert settings.rules[n..][1..] == settings.rules[n + 1..];
    }
  }

  function WithoutTag(rules: seq<Rule>, tag: nat): seq<Rule> {
    if rules == [] then []
    else (if rules[0].tag == tag then [] else [rules[0]]) + WithoutTag(rules[1..], tag)
  }

  lemma {:induction false} WithoutTagKeeps(rules: seq<Rule>, tag: nat)
    ensures forall rule :: rule in WithoutTag(rules, tag) <==> rule in rules && rule.tag != tag
    ensures DistinctTags(rules) ==> DistinctTags(WithoutTag(rules, tag))
  {
    if rules != [] {
      WithoutTagKeeps(rules[1..], tag);
      assert rules == [rules[0]] + rules[1..];
      var kept := WithoutTag(rules[1..], tag);
      if DistinctTags(rules) && rules[0].tag != tag {
        forall i, j | 0 <= i < j < |WithoutTag(rules, tag)|
          ensures WithoutTag(rules, tag)[i].tag != WithoutTag(rules, tag)[j].tag
        {
          if i == 0 {
            assert kept[j - 1] in rules[1..];
          } else {
            assert kept[i - 1].tag != kept[j - 1].tag;
          }
        }
      }
    }
  }

  lemma {:induction false} WithoutTagShorter(rules: seq<Rule>, tag: nat)
    ensures if tag in RuleTags(rules) then |WithoutTag(rules, tag)| < |rules| else WithoutTag(rules, tag) == rules
  {
    if rules != [] {
      WithoutTagShorter(rules[1..], tag);
      assert rules == [rules[0]] + rules[1..];
      if tag in RuleTags(rules) && rules[0].tag != tag {
        var i :| 0 <= i < |rules| && rules[i].tag == tag;
        assert rules[1..][i - 1].tag == tag;
      }
      if tag in RuleTags(rules[1..]) {
        var i :| 0 <= i < |rules[1..]| && rules[1..][i].tag == tag;
        assert rules[i + 1].tag == tag;
      }
      assert rules[0].tag in RuleTags(rules);
    }
  }

  method KeptRules(rules: seq<Rule>, tag: nat) returns (kept: seq<Rule>)
    ensures kept == WithoutTag(rules, tag)
  {
    kept := [];
    for i := 0 to |rules|
      invariant kept + WithoutTag(rules[i..], tag) == WithoutTag(rules, tag)
    {
      assert rules[i..][1..] == rules[i + 1..];
      if rules[i].tag != tag {
        kept := kept + [rules[i]];
      }
    }
  }

  lemma {:induction false} FoldWithoutTag(defaults: Profile, rules: seq<Rule>, tags: set<nat>, tag: nat)
    requires tag !in tags
    ensures Fold(defaults, WithoutTag(rules, tag), tags) == Fold(defaults, rules, tags)
  {
    if rules != [] {
      FoldWithoutTag(defaults, rules[1..], tags, tag);
      if rules[0].tag == tag {
        assert WithoutTag(rules, tag) == WithoutTag(rules[1..], tag);
      } else {
        assert WithoutTag(rules, tag)[1..] == WithoutTag(rules[1..], tag);
      }
    }
  }

  // Deleting a tag stores the unconverted rules that remain, in the current format.
  function RemoveRule(config: Settings, tag: nat): Settings {
    Settings(config.defaults, WithoutTag(config.rules, tag), false)
  }

  lemma RemoveRulePlan(config: Settings, tag: nat, tags: set<nat>)
    requires tag !in tags
    ensures Resolve(RemoveRule(config, tag), tags) == Resolve(config, tags)
  {
    FoldWithoutTag(config.defaults, config.rules, tags, tag);
    FoldIsResolve(config, tags, 0);
    FoldIsResolve(RemoveRule(config, tag), tags, 0);
    assert config.rules[0..] == config.rules;
    assert RemoveRule(config, tag).rules[0..] == RemoveRule(config, tag).rules;
  }

  lemma {:induction false} NoTagsApply(settings: Settings, tags: set<nat>, n: nat)
    requires n <= |settings.rules|
    requires forall i | n <= i < |settings.rules| :: settings.rules[i].tag !in tags
    ensures ResolveFrom(settings, tags, n) == Initial(settings.defaults)
    decreases |settings.rules| - n
  {
    if n < |settings.rules| {
      NoTagsApply(settings, tags, n + 1);
    }
  }
}
