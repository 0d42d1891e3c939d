// Deleting a tag's rule from a profile that is read through its TCP conversion.
module LegacyDeletion {
  import opened Options
  import opened CheckerSettings
  import opened Plans
  import opened SnapshotBuild

  // Some tag set without the deleted tag enables a protocol on a transport other than TCP, when the
  // stored rules are read without conversion.
  ghost predicate ReachesOffTcp(config: Settings, tag: nat) {
    exists tags: set<nat> :: tag !in tags && OffTcp(ResolveFrom(config, tags, 0))
  }

  predicate OffTcp(s: Selection) {
    s.mask != EMPTY_MASK && s.transport != Tcp
  }

  // The stored configuration can lose this tag without changing the keys of routes that never held it.
  ghost predicate DeletionIsLocal(config: Settings, tag: nat) {
    Converted(config) ==> !ReachesOffTcp(config, tag)
  }

  ghost predicate SameKeys(config: Settings, tag: nat, base: Base, tags: set<nat>) {
    RoutePlan(Effective(config), base, tags).keys == RoutePlan(RemoveRule(config, tag), base, tags).keys
  }

  lemma LocalDeletionKeepsKeys(config: Settings, tag: nat, base: Base, tags: set<nat>)
    requires DeletionIsLocal(config, tag) && tag !in tags
    ensures SameKeys(config, tag, base, tags)
  {
    RemoveRulePlan(config, tag, tags);
    if Converted(config) {
      TcpSelection(config, tags, 0);
      var raw := ResolveFrom(config, tags, 0);
      assert !OffTcp(raw);
    }
  }

  lemma OffTcpKeys(s: Selection, base: Base)
    requires OffTcp(s)
    ensures Compile(base, Expand(s)).keys != Compile(base, Expand(s.(transport := Tcp))).keys
  {
    var index := if s.mask.http then 0 else if s.mask.https then 1 else if s.mask.socks4 then 2 else 3;
    assert Compile(base, Expand(s)).keys[index].transport != Compile(base, Expand(s.(transport := Tcp))).keys[index].transport;
  }

  // The condition is exact: when it fails, some route without the tag changes keys under every base.
  lemma DeletionIsLocalExactly(config: Settings, tag: nat, base: Base)
    ensures DeletionIsLocal(config, tag) <==> forall tags: set<nat> | tag !in tags :: SameKeys(config, tag, base, tags)
  {
    if DeletionIsLocal(config, tag) {
      forall tags: set<nat> | tag !in tags ensures SameKeys(config, tag, base, tags) {
        LocalDeletionKeepsKeys(config, tag, base, tags);
      }
    } else {
      var tags: set<nat> :| tag !in tags && OffTcp(ResolveFrom(config, tags, 0));
      RemoveRulePlan(config, tag, tags);
      TcpSelection(config, tags, 0);
      OffTcpKeys(ResolveFrom(config, tags, 0), base);
      assert !SameKeys(config, tag, base, tags);
    }
  }

  // ---- Deciding it -------------------------------------------------------------------------------------------

  // Without the tag's rule, every tag set counts as one that does not hold the tag.
  lemma ReachedWithoutRule(config: Settings, tag: nat)
    ensures ReachesOffTcp(config, tag) <==> exists tags: set<nat> :: OffTcp(ResolveFrom(RemoveRule(config, tag), tags, 0))
  {
    var rest := RemoveRule(config, tag);
    WithoutTagKeeps(config.rules, tag);
    forall tags: set<nat> | tag !in tags ensures ResolveFrom(rest, tags, 0) == ResolveFrom(config, tags, 0) {
      FoldWithoutTag(config.defaults, config.rules, tags, tag);
      FoldIsResolve(config, tags, 0);
      FoldIsResolve(rest, tags, 0);
      assert config.rules[0..] == config.rules && rest.rules[0..] == rest.rules;
    }
    if tags: set<nat> :| OffTcp(ResolveFrom(rest, tags, 0)) {
      forall i | 0 <= i < |rest.rules| ensures rest.rules[i].tag in tags <==> rest.rules[i].tag in tags - {tag} {
        assert rest.rules[i] in rest.rules;
      }
      ResolveUsesRuleTags(rest, tags, tags - {tag}, 0);
      assert tag !in tags - {tag} && OffTcp(ResolveFrom(config, tags - {tag}, 0));
    }
  }

  method FindOffTcp(config: Settings, tag: nat) returns (found: bool)
    requires DistinctTags(config.rules)
    requires forall rule | rule in config.rules && rule.mode == Remove :: rule.transport.None?
    ensures found <==> ReachesOffTcp(config, tag)
  {
    var kept := KeptRules(config.rules, tag);
    WithoutTagKeeps(config.rules, tag);
    ReachedWithoutRule(config, tag);
    var rest := Settings(config.defaults, kept, false);
    assert rest == RemoveRule(config, tag);
    var states := ReachedStates(rest);
    found := exists state | state in states :: state.mask != EMPTY_MASK && state.transport != Tcp;
    if found {
      ghost var state :| state in states && state.mask != EMPTY_MASK && state.transport != Tcp;
      ghost var tags: set<nat> :| Seen(ResolveFrom(rest, tags, 0)) == state;
      assert OffTcp(ResolveFrom(RemoveRule(config, tag), tags, 0));
    } else {
      forall tags: set<nat> ensures !OffTcp(ResolveFrom(RemoveRule(config, tag), tags, 0)) {
        assert Seen(ResolveFrom(rest, tags, 0)) in states;
      }
    }
  }

  // A profile that is read through its conversion has distinct tags, and no remove rule overrides a field.
  lemma ConvertedRules(config: Settings)
    requires Valid(AllTcp(config))
    ensures DistinctTags(config.rules)
    ensures forall rule | rule in config.rules && rule.mode == Remove :: rule.transport.None?
  {
    var converted := AllTcp(config).rules;
    forall i, j | 0 <= i < j < |config.rules| ensures config.rules[i].tag != config.rules[j].tag {
      assert converted[i].tag != converted[j].tag;
    }
    forall rule | rule in config.rules && rule.mode == Remove ensures rule.transport.None? {
      var i :| 0 <= i < |config.rules| && config.rules[i] == rule;
      assert WellFormedRule(converted[i]);
    }
  }

  // Whether a tag can be deleted without changing keys elsewhere, by two validations and the reachable states.
  method DecideLocalDeletion(config: Settings, tag: nat) returns (local: bool)
    ensures local <==> DeletionIsLocal(config, tag)
  {
    hide Valid, ReachesOffTcp, AllTcp;
    if !config.legacy { return true; }
    var raw := ValidateCheckerSettings(Some(config));
    if raw.None? { return true; }
    var converted := ValidateCheckerSettings(Some(AllTcp(config)));
    if converted.Some? { return true; }
    ConvertedRules(config);
    var found := FindOffTcp(config, tag);
    local := !found;
  }
}
