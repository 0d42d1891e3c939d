// A route's compiled check plan: the resolved settings and one configuration key per protocol.
module Plans {
  import opened CheckerSettings
  import Sorting

  datatype Scheme = HttpScheme | HttpsScheme

  datatype Judge = Judge(id: nat, scheme: Scheme, url: string, regex: string)

  // The inputs of compilation that all routes of a workspace share.
  datatype Base = Base(httpsForSocks: bool, judges: seq<Judge>, headers: seq<string>)

  // The source hashes this identity; the hash is taken to be injective, and "" is NoKey.
  datatype Key =
    | NoKey
    | Key(index: nat, transport: Transport, timeout: uint16, retries: uint8, judges: seq<Judge>, headers: seq<string>)

  datatype Plan = Plan(settings: seq<Check>, keys: seq<Key>)

  function JudgeScheme(base: Base, index: nat, transport: Transport): Scheme {
    if transport == Quic || transport == Http3 || index == 1 then HttpsScheme
    else if index >= 2 && base.httpsForSocks then HttpsScheme
    else HttpScheme
  }

  function WithScheme(judges: seq<Judge>, scheme: Scheme): seq<Judge> {
    if judges == [] then []
    else (if judges[0].scheme == scheme then [judges[0]] else []) + WithScheme(judges[1..], scheme)
  }

  const BY_JUDGE_ID := (a: Judge, b: Judge) => a.id <= b.id

  function JudgesFor(base: Base, index: nat, transport: Transport): seq<Judge> {
    Sorting.Sort(BY_JUDGE_ID, WithScheme(base.judges, JudgeScheme(base, index, transport)))
  }

  function KeyFor(base: Base, index: nat, check: Check): Key {
    if !check.enabled then NoKey
    else Key(index, check.transport, check.timeout, check.retries, JudgesFor(base, index, check.transport), base.headers)
  }

  function Compile(base: Base, settings: seq<Check>): Plan
    requires |settings| == 4
  {
    Plan(settings, seq(4, i requires 0 <= i < 4 => KeyFor(base, i, settings[i])))
  }

  lemma {:induction false} WithSchemeAppend(judges: seq<Judge>, judge: Judge, scheme: Scheme)
    ensures WithScheme(judges + [judge], scheme) ==
            WithScheme(judges, scheme) + (if judge.scheme == scheme then [judge] else [])
  {
    if judges == [] {
      assert judges + [judge] == [judge];
    } else {
      WithSchemeAppend(judges[1..], judge, scheme);
      assert (judges + [judge])[1..] == judges[1..] + [judge];
    }
  }

  method SelectJudges(judges: seq<Judge>, scheme: Scheme) returns (selected: seq<Judge>)
    ensures selected == Sorting.Sort(BY_JUDGE_ID, WithScheme(judges, scheme))
  {
    selected := [];
    for n := 0 to |judges|
      invariant selected == WithScheme(judges[..n], scheme)
    {
      assert judges[..n + 1] == judges[..n] + [judges[n]];
      WithSchemeAppend(judges[..n], judges[n], scheme);
      if judges[n].scheme == scheme {
        selected := selected + [judges[n]];
      }
    }
    assert judges[..|judges|] == judges;
    selected := Sorting.Sort(BY_JUDGE_ID, selected);
  }

  method CompileKey(base: Base, index: nat, setting: Check) returns (key: Key)
    requires index < 4
    ensures key == KeyFor(base, index, setting)
  {
    if !setting.enabled { return NoKey; }
    var scheme := if index == 1 then HttpsScheme else HttpScheme;
    if index >= 2 {
      scheme := if base.httpsForSocks then HttpsScheme else HttpScheme;
    }
    if setting.transport == Quic || setting.transport == Http3 {
      scheme := HttpsScheme;
    }
    var judges := SelectJudges(base.judges, scheme);
    key := Key(index, setting.transport, setting.timeout, setting.retries, judges, base.headers);
  }

  // HTTPS routes and encrypted transports are checked against HTTPS judges; SOCKS routes if the workspace says so.
  ghost predicate AsksHttps(base: Base, protocol: Protocol, transport: Transport) {
    protocol == Https || transport == Quic || transport == Http3 || (protocol in {Socks4, Socks5} && base.httpsForSocks)
  }

  // The judges of the asked scheme, each as often as the workspace lists it, in id order.
  ghost predicate JudgesAsAsked(base: Base, protocol: Protocol, transport: Transport, judges: seq<Judge>) {
    && (forall j: Judge :: multiset(judges)[j] ==
          if (j.scheme == HttpsScheme) == AsksHttps(base, protocol, transport) then multiset(base.judges)[j] else 0)
    && forall a, b | 0 <= a < b < |judges| :: judges[a].id <= judges[b].id
  }

  ghost predicate KeyAsAsked(base: Base, index: nat, check: Check, key: Key)
    requires index < 4
  {
    if !check.enabled then key == NoKey
    else
      && key.Key? && key.index == index && key.headers == base.headers
      && key.transport == check.transport && key.timeout == check.timeout && key.retries == check.retries
      && JudgesAsAsked(base, PROTOCOLS[index], check.transport, key.judges)
  }

  lemma {:induction false} WithSchemeCounts(judges: seq<Judge>, scheme: Scheme, j: Judge)
    ensures multiset(WithScheme(judges, scheme))[j] == if j.scheme == scheme then multiset(judges)[j] else 0
  {
    if judges != [] {
      WithSchemeCounts(judges[1..], scheme, j);
      assert judges == [judges[0]] + judges[1..];
    }
  }

  lemma KeyIsAsAsked(base: Base, index: nat, check: Check)
    requires index < 4
    ensures KeyAsAsked(base, index, check, KeyFor(base, index, check))
  {
    var scheme := JudgeScheme(base, index, check.transport);
    var judges := JudgesFor(base, index, check.transport);
    assert scheme == HttpsScheme <==> AsksHttps(base, PROTOCOLS[index], check.transport);
    Sorting.SortSorts(BY_JUDGE_ID, WithScheme(base.judges, scheme));
    forall j: Judge ensures multiset(judges)[j] == if j.scheme == scheme then multiset(base.judges)[j] else 0 {
      WithSchemeCounts(base.judges, scheme, j);
    }
    forall a, b | 0 <= a < b < |judges| ensures judges[a].id <= judges[b].id {
      assert BY_JUDGE_ID(judges[a], judges[b]);
    }
  }

  // The settings as they were resolved, and for each protocol the key of what it asks for.
  ghost predicate AsAsked(base: Base, resolved: seq<Check>, plan: Plan) {
    && |resolved| == 4 && plan.settings == resolved && |plan.keys| == 4
    && forall i | 0 <= i < 4 :: KeyAsAsked(base, i, resolved[i], plan.keys[i])
  }

  lemma CompileIsAsAsked(base: Base, resolved: seq<Check>)
    requires |resolved| == 4
    ensures AsAsked(base, resolved, Compile(base, resolved))
  {
    hide KeyAsAsked, KeyFor;
    forall i | 0 <= i < 4 { KeyIsAsAsked(base, i, resolved[i]); }
  }

  method CompilePlan(base: Base, resolved: seq<Check>) returns (plan: Plan)
    requires |resolved| == 4
    ensures plan == Compile(base, resolved)
    ensures AsAsked(base, resolved, plan)
  {
    hide AsAsked;
    CompileIsAsAsked(base, resolved);
    var keys: seq<Key> := [];
    for index := 0 to 4
      invariant |keys| == index
      invariant forall i | 0 <= i < index :: keys[i] == KeyFor(base, i, resolved[i])
    {
      var key := CompileKey(base, index, resolved[index]);
      keys := keys + [key];
    }
    plan := Plan(resolved, keys);
  }

  // What taking the hash to be injective amounts to: equal keys mean equal settings wherever the protocol is enabled.
  lemma KeyDeterminesSettings(base: Base, a: seq<Check>, b: seq<Check>, index: nat)
    requires |a| == 4 && |b| == 4 && index < 4
    requires Compile(base, a).keys[index] == Compile(base, b).keys[index]
    ensures a[index].enabled == b[index].enabled
    ensures a[index].enabled ==> a[index] == b[index]
  {
    assert KeyFor(base, index, a[index]) == KeyFor(base, index, b[index]);
  }
}
