// The tags whose rules differ between two rule lists, as the settings transaction records them.
module RuleChanges {
  import opened Options
  import opened CheckerSettings

  // The tag's rule stands at the same place with the same content in both lists.
  ghost predicate SameRule(before: seq<Rule>, after: seq<Rule>, tag: nat) {
    exists i :: 0 <= i < |before| && i < |after| && before[i].tag == tag && before[i] == after[i]
  }

  ghost function ChangedTags(before: seq<Rule>, after: seq<Rule>): set<nat> {
    set tag | tag in RuleTags(before) + RuleTags(after) && !SameRule(before, after, tag)
  }

  datatype IndexedRule = IndexedRule(index: nat, rule: Rule)

  ghost predicate IsIndex(rules: seq<Rule>, index: map<nat, IndexedRule>) {
    && index.Keys == RuleTags(rules)
    && forall k | 0 <= k < |rules| :: index[rules[k].tag] == IndexedRule(k, rules[k])
  }

  method IndexRules(rules: seq<Rule>) returns (index: map<nat, IndexedRule>)
    requires DistinctTags(rules)
    ensures IsIndex(rules, index)
  {
    index := map[];
    for i := 0 to |rules|
      invariant index.Keys == RuleTags(rules[..i])
      invariant forall k | 0 <= k < i :: rules[k].tag in index && index[rules[k].tag] == IndexedRule(k, rules[k])
    {
      index := index[rules[i].tag := IndexedRule(i, rules[i])];
    }
    assert rules[..|rules|] == rules;
  }

  // The changed tags of the new list alone, in its order.
  ghost predicate Moved(before: seq<Rule>, after: seq<Rule>, j: nat)
    requires j < |after|
  {
    !(j < |before| && before[j] == after[j])
  }

  lemma MovedMeans(before: seq<Rule>, after: seq<Rule>, j: nat)
    requires DistinctTags(before) && DistinctTags(after) && j < |after|
    ensures Moved(before, after, j) <==> !SameRule(before, after, after[j].tag)
  {
    if SameRule(before, after, after[j].tag) {
      var i :| 0 <= i < |before| && i < |after| && before[i].tag == after[j].tag && before[i] == after[i];
      assert i == j;
    }
  }

  ghost predicate MovedBefore(before: seq<Rule>, after: seq<Rule>, n: nat, id: nat)
    requires n <= |after|
  {
    exists j :: 0 <= j < n && Moved(before, after, j) && after[j].tag == id
  }

  lemma MovedBeforeStep(before: seq<Rule>, after: seq<Rule>, n: nat, id: nat)
    requires n < |after|
    ensures MovedBefore(before, after, n + 1, id) <==>
            MovedBefore(before, after, n, id) || (Moved(before, after, n) && after[n].tag == id)
  {
  }

  // The first loop: new and moved rules are listed, and every listed tag leaves the old index.
  method CollectMoved(before: seq<Rule>, after: seq<Rule>, index: map<nat, IndexedRule>)
    returns (ids: seq<nat>, left: map<nat, IndexedRule>)
    requires DistinctTags(before) && DistinctTags(after) && IsIndex(before, index)
    ensures left.Keys == index.Keys - RuleTags(after)
    ensures forall id :: id in ids <==> MovedBefore(before, after, |after|, id)
  {
    ids, left := [], index;
    for i := 0 to |after|
      invariant left.Keys == index.Keys - RuleTags(after[..i])
      invariant forall tag | tag in left :: left[tag] == index[tag]
      invariant forall id :: id in ids <==> MovedBefore(before, after, i, id)
    {
      var rule := after[i];
      FreshTag(after, i);
      forall id { MovedBeforeStep(before, after, i, id); }
      ghost var previous := ids;
      if rule.tag !in left || left[rule.tag].index != i || left[rule.tag].rule != rule {
        assert Moved(before, after, i);
        ids := ids + [rule.tag];
      } else {
        assert !Moved(before, after, i);
      }
      left := left - {rule.tag};
    }
    assert after[..|after|] == after;
  }

  lemma FreshTag(rules: seq<Rule>, i: nat)
    requires DistinctTags(rules) && i < |rules|
    ensures rules[i].tag !in RuleTags(rules[..i])
  {
  }

  method AppendTags(ids: seq<nat>, tags: set<nat>) returns (all: seq<nat>)
    ensures forall id :: id in all <==> id in ids || id in tags
  {
    all := ids;
    var remaining := tags;
    while remaining != {}
      invariant remaining <= tags
      invariant forall id :: id in all <==> id in ids || id in tags - remaining
      decreases |remaining|
    {
      var id :| id in remaining;
      all := all + [id];
      remaining := remaining - {id};
    }
  }

  method ChangedCheckerRuleTags(before: seq<Rule>, after: seq<Rule>) returns (ids: seq<nat>)
    requires DistinctTags(before) && DistinctTags(after)
    ensures (set id | id in ids) == ChangedTags(before, after)
  {
    var index := IndexRules(before);
    var moved, left := CollectMoved(before, after, index);
    ids := AppendTags(moved, left.Keys);
    forall id ensures id in ids <==> id in ChangedTags(before, after) {
      if id in RuleTags(after) {
        var j :| 0 <= j < |after| && after[j].tag == id;
        MovedMeans(before, after, j);
      }
    }
  }

  // A route that holds none of the changed tags keeps its plan, however the lists were reordered,
  // extended or shortened.
  lemma UntouchedRouteKeepsPlan(before: Settings, after: Settings, tags: set<nat>)
    requires DistinctTags(before.rules) && DistinctTags(after.rules)
    requires before.defaults == after.defaults
    requires tags !! ChangedTags(before.rules, after.rules)
    ensures Resolve(before, tags) == Resolve(after, tags)
  {
    UntouchedFrom(before, after, tags, 0);
  }

  ghost function Clamp(n: nat, rules: seq<Rule>): (m: nat)
    ensures m <= |rules|
  {
    if n <= |rules| then n else |rules|
  }

  lemma {:induction false} UntouchedFrom(before: Settings, after: Settings, tags: set<nat>, n: nat)
    requires DistinctTags(before.rules) && DistinctTags(after.rules)
    requires before.defaults == after.defaults
    requires tags !! ChangedTags(before.rules, after.rules)
    ensures ResolveFrom(before, tags, Clamp(n, before.rules)) == ResolveFrom(after, tags, Clamp(n, after.rules))
    decreases |before.rules| + |after.rules| - n
  {
    var old_, new_ := before.rules, after.rules;
    if n < |old_| || n < |new_| {
      UntouchedFrom(before, after, tags, n + 1);
      if n < |old_| && old_[n].tag in tags { StaysInPlace(old_, new_, tags, n, old_[n].tag); }
      if n < |new_| && new_[n].tag in tags { StaysInPlace(old_, new_, tags, n, new_[n].tag); }
    }
  }

  lemma StaysInPlace(before: seq<Rule>, after: seq<Rule>, tags: set<nat>, n: nat, tag: nat)
    requires DistinctTags(before) && DistinctTags(after) && tags !! ChangedTags(before, after)
    requires tag in tags && ((n < |before| && before[n].tag == tag) || (n < |after| && after[n].tag == tag))
    ensures n < |before| && n < |after| && before[n] == after[n]
  {
    assert tag in RuleTags(before) + RuleTags(after);
    assert SameRule(before, after, tag);
    var i :| 0 <= i < |before| && i < |after| && before[i].tag == tag && before[i] == after[i];
    assert i == n;
  }
}
