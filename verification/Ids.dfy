// Sets of ids and their listings.
module Ids {
  import Sorting

  function Elements(s: seq<nat>): set<nat> {
    set id | id in s
  }

  // A set as a duplicate-free list, in whatever order the rows come.
  method Listed(ids: set<nat>) returns (list: seq<nat>)
    ensures Elements(list) == ids
    ensures forall i, j | 0 <= i < j < |list| :: list[i] != list[j]
  {
    list := [];
    var left := ids;
    while left != {}
      invariant left <= ids && Elements(list) == ids - left
      invariant forall i, j | 0 <= i < j < |list| :: list[i] != list[j]
      decreases |left|
    {
      var id :| id in left;
      assert id !in list by { assert id !in Elements(list); }
      assert Elements(list + [id]) == Elements(list) + {id};
      list, left := list + [id], left - {id};
    }
  }

  ghost predicate Ascending(s: seq<nat>) {
    forall i, j | 0 <= i < j < |s| :: s[i] < s[j]
  }

  lemma AppendAscending(s: seq<nat>, id: nat)
    requires Ascending(s) && forall x | x in s :: x < id
    ensures Ascending(s + [id])
  {
    forall i, j | 0 <= i < j < |s + [id]| ensures (s + [id])[i] < (s + [id])[j] {
      assert s[i] in s;
    }
  }

  const BY_ID := (a: nat, b: nat) => a <= b

  method SortedIds(ids: set<nat>) returns (round: seq<nat>)
    ensures Ascending(round) && Elements(round) == ids
  {
    var listed := Listed(ids);
    round := Sorting.Sort(BY_ID, listed);
    Sorting.SortSorts(BY_ID, listed);
    SortedDistinct(listed, round);
    forall id ensures id in round <==> id in listed {
      assert id in multiset(round) <==> id in multiset(listed);
    }
  }

  // The lowest ids of a set, in order, as many as the limit allows.
  ghost predicate LowestOf(some: seq<nat>, ids: set<nat>, limit: nat) {
    && Ascending(some) && |some| <= limit && Elements(some) <= ids
    && forall id | id in ids && id !in some :: |some| == limit && forall taken | taken in some :: taken < id
  }

  lemma LowestPrefix(ids: seq<nat>, some: seq<nat>, limit: nat)
    requires Ascending(ids) && some == if |ids| <= limit then ids else ids[..limit]
    ensures LowestOf(some, Elements(ids), limit)
  {
    forall id | id in ids && id !in some ensures |some| == limit && forall taken | taken in some :: taken < id {
      var k :| 0 <= k < |ids| && ids[k] == id;
      assert forall j | 0 <= j < |some| :: some[j] == ids[j] && some[j] in some;
      assert |some| <= k;
    }
  }

  lemma {:induction false} SortedListing(ids: set<nat>) returns (list: seq<nat>)
    ensures Ascending(list) && Elements(list) == ids
    decreases |ids|
  {
    if ids == {} {
      list := [];
    } else {
      var top := Highest(ids);
      var rest := SortedListing(ids - {top});
      assert forall x | x in rest :: x in Elements(rest);
      AppendAscending(rest, top);
      list := rest + [top];
      assert Elements(list) == Elements(rest) + {top};
    }
  }

  lemma {:induction false} Highest(ids: set<nat>) returns (top: nat)
    requires ids != {}
    ensures top in ids && forall x | x in ids :: x <= top
    decreases |ids|
  {
    top :| top in ids;
    if ids != {top} {
      var rest := Highest(ids - {top});
      assert forall x | x in ids :: x == top || x in ids - {top};
      if rest > top { top := rest; }
    }
  }

  lemma SortedDistinct(listed: seq<nat>, round: seq<nat>)
    requires AllDifferent(listed) && multiset(round) == multiset(listed) && Sorting.Sorted(BY_ID, round)
    ensures Ascending(round)
  {
    PermutedDifferent(listed, round);
    forall i, j | 0 <= i < j < |round| ensures round[i] < round[j] {
      assert BY_ID(round[i], round[j]);
    }
  }

  ghost predicate AllDifferent<T>(s: seq<T>) {
    forall i, j | 0 <= i < j < |s| :: s[i] != s[j]
  }

  lemma PermutedDifferent<T>(a: seq<T>, b: seq<T>)
    requires AllDifferent(a) && multiset(a) == multiset(b)
    ensures AllDifferent(b)
  {
    forall i, j | 0 <= i < j < |b| ensures b[i] != b[j] {
      AtMostOnce(a, b[i]);
      if b[i] == b[j] { Twice(b, i, j); }
    }
  }

  lemma Twice<T>(s: seq<T>, i: nat, j: nat)
    requires i < j < |s| && s[i] == s[j]
    ensures multiset(s)[s[i]] >= 2
  {
    assert s == s[..i] + [s[i]] + s[i + 1..j] + [s[j]] + s[j + 1..];
  }

  lemma {:induction false} AtMostOnce<T>(s: seq<T>, x: T)
    requires AllDifferent(s)
    ensures multiset(s)[x] <= 1
  {
    if s != [] {
      assert s == [s[0]] + s[1..];
      AtMostOnce(s[1..], x);
    }
  }
}
