// The rotator's cursor scan: the next eligible route after the cursor, else the first, and what that is fair to.
module Rotator {
  import opened Options
  import opened Ids

  predicate IsLeast(s: set<nat>, x: nat) {
    x in s && forall y | y in s :: x <= y
  }

  lemma LeastExists(s: set<nat>)
    requires s != {}
    ensures exists x :: IsLeast(s, x)
    decreases |s|
  {
    var y :| y in s;
    if s == {y} {
      assert IsLeast(s, y);
    } else {
      LeastExists(s - {y});
      var z :| IsLeast(s - {y}, z);
      var x := if y < z then y else z;
      forall w | w in s ensures x <= w {
        assert w == y || w in s - {y};
      }
      assert IsLeast(s, x);
    }
  }

  ghost function Least(s: set<nat>): (x: nat)
    requires s != {}
    ensures IsLeast(s, x)
  {
    LeastExists(s);
    var x :| IsLeast(s, x);
    x
  }

  ghost function Past(eligible: set<nat>, cursor: Option<nat>): set<nat> {
    set e | e in eligible && cursor.Some? && e > cursor.value
  }

  ghost function Select(eligible: set<nat>, cursor: Option<nat>): Option<nat> {
    if eligible == {} then None
    else if Past(eligible, cursor) != {} then Some(Least(Past(eligible, cursor)))
    else Some(Least(eligible))
  }

  class RotatingProxy {
    var cursor: Option<nat>

    constructor ()
      ensures cursor == None
    {
      cursor := None;
    }

    // The lowest eligible id, past the cursor if that is asked for.
    method FetchCandidate(eligible: set<nat>, applyCursor: bool) returns (found: Option<nat>)
      requires applyCursor ==> cursor.Some?
      ensures var scope := if applyCursor then Past(eligible, cursor) else eligible;
              found == if scope == {} then None else Some(Least(scope))
    {
      var scope := if applyCursor then set e | e in eligible && e > cursor.value else eligible;
      assert scope == if applyCursor then Past(eligible, cursor) else eligible;
      var order := SortedIds(scope);
      if |order| == 0 {
        assert Elements(order) == {};
        return None;
      }
      assert order[0] in Elements(order);
      forall e | e in scope ensures order[0] <= e { assert e in Elements(order); }
      found := Some(order[0]);
    }

    // Without an eligible route the cursor stays; otherwise it moves to the selected one.
    method GetNext(eligible: set<nat>) returns (selected: Option<nat>)
      modifies this
      ensures selected == Select(eligible, old(cursor))
      ensures cursor == if selected.Some? then selected else old(cursor)
    {
      selected := None;
      if cursor.Some? {
        selected := FetchCandidate(eligible, true);
      }
      if selected.None? {
        selected := FetchCandidate(eligible, false);
      }
      if selected.Some? {
        cursor := selected;
      }
    }
  }

  // ---- Runs ---------------------------------------------------------------------------------------------------

  // The eligible routes at each call, however they change in between.
  ghost function CursorAfter(cursor: Option<nat>, calls: seq<set<nat>>): Option<nat>
    decreases |calls|
  {
    if calls == [] then cursor
    else
      var before := CursorAfter(cursor, calls[..|calls| - 1]);
      var selected := Select(calls[|calls| - 1], before);
      if selected.Some? then selected else before
  }

  ghost function Selected(cursor: Option<nat>, calls: seq<set<nat>>, i: nat): Option<nat>
    requires i < |calls|
  {
    Select(calls[i], CursorAfter(cursor, calls[..i]))
  }

  // How far a route is past x, going round: first the ids above x, then those up to x.
  ghost predicate Sooner(x: nat, a: nat, b: nat) {
    if a > x then (b > x ==> a < b) else (b <= x && a < b)
  }

  lemma SelectionMovesOn(x: nat, eligible: set<nat>, cursor: nat)
    requires x in eligible && cursor != x
    ensures Select(eligible, Some(cursor)).Some? && Sooner(x, cursor, Select(eligible, Some(cursor)).value)
  {
    if cursor < x { assert x in Past(eligible, Some(cursor)); }
  }

  // Calls in which x is eligible and, after it was selected, not selected again.
  ghost predicate Waits(x: nat, calls: seq<set<nat>>) {
    && (forall i | 0 <= i < |calls| :: x in calls[i])
    && (forall i | 0 <= i < |calls| :: Selected(Some(x), calls, i) != Some(x))
  }

  lemma CursorIsSelection(cursor: Option<nat>, calls: seq<set<nat>>, i: nat)
    requires i < |calls| && calls[i] != {}
    ensures CursorAfter(cursor, calls[..i + 1]) == Selected(cursor, calls, i)
  {
    assert calls[..i + 1][..i] == calls[..i];
  }

  lemma {:induction false} WaitingAdvances(x: nat, calls: seq<set<nat>>, i: nat, j: nat)
    requires Waits(x, calls) && i < j < |calls|
    ensures Selected(Some(x), calls, i).Some? && Selected(Some(x), calls, j).Some?
    ensures Sooner(x, Selected(Some(x), calls, i).value, Selected(Some(x), calls, j).value)
  {
    assert x in calls[i] && x in calls[j - 1] && x in calls[j];
    CursorIsSelection(Some(x), calls, j - 1);
    var last := Selected(Some(x), calls, j - 1).value;
    assert Selected(Some(x), calls, j - 1) != Some(x);
    SelectionMovesOn(x, calls[j], last);
    if i < j - 1 { WaitingAdvances(x, calls, i, j - 1); }
  }

  // While x stays eligible, no other route is selected twice between two selections of x, whatever else
  // joins or leaves.
  lemma NobodyTwiceWhileWaiting(x: nat, calls: seq<set<nat>>, i: nat, j: nat)
    requires Waits(x, calls) && i < j < |calls|
    ensures Selected(Some(x), calls, i) != Selected(Some(x), calls, j)
  {
    WaitingAdvances(x, calls, i, j);
  }

  // ---- A fixed set --------------------------------------------------------------------------------------------

  ghost function Same(eligible: set<nat>, n: nat): seq<set<nat>> {
    seq(n, _ => eligible)
  }

  // Positions counted round a list of n.
  function Round(k: nat, n: nat): (r: nat)
    requires k < 2 * n
    ensures r < n
  {
    if k < n then k else k - n
  }

  lemma SelectIsSuccessor(order: seq<nat>, k: nat)
    requires Ascending(order) && k < |order|
    ensures Select(Elements(order), Some(order[k])) == Some(order[Round(k + 1, |order|)])
  {
    var eligible, n := Elements(order), |order|;
    assert order[0] in eligible;
    if k + 1 < n {
      assert order[k + 1] in Past(eligible, Some(order[k]));
      var x := Least(Past(eligible, Some(order[k])));
      var m :| 0 <= m < n && order[m] == x;
    } else {
      assert Past(eligible, Some(order[k])) == {};
      var x := Least(eligible);
      var m :| 0 <= m < n && order[m] == x;
    }
  }

  // From any cursor, the selections go round the ids in order.
  lemma {:induction false} RoundRobin(order: seq<nat>, cursor: Option<nat>, first: nat, i: nat)
    requires Ascending(order) && first < |order| && i < |order|
    requires Select(Elements(order), cursor) == Some(order[first])
    ensures Selected(cursor, Same(Elements(order), |order|), i) == Some(order[Round(first + i, |order|)])
  {
    hide Select;
    var calls := Same(Elements(order), |order|);
    if i > 0 {
      RoundRobin(order, cursor, first, i - 1);
      assert order[0] in Elements(order);
      CursorIsSelection(cursor, calls, i - 1);
      SelectIsSuccessor(order, Round(first + i - 1, |order|));
    } else {
      assert calls[..0] == [];
    }
  }

  lemma FirstSelection(order: seq<nat>, cursor: Option<nat>) returns (first: nat)
    requires Ascending(order) && order != []
    ensures first < |order| && Select(Elements(order), cursor) == Some(order[first])
  {
    assert order[0] in Elements(order);
    var start := Select(Elements(order), cursor).value;
    first :| 0 <= first < |order| && order[first] == start;
  }

  // Any n consecutive selections from a fixed set of n eligible routes visit each exactly once.
  // Counting round from any start reaches every position.
  lemma RoundReaches(first: nat, k: nat, n: nat) returns (i: nat)
    requires first < n && k < n
    ensures i < n && Round(first + i, n) == k
  {
    i := if k >= first then k - first else k + n - first;
  }

  lemma EachExactlyOnce(order: seq<nat>, cursor: Option<nat>)
    requires Ascending(order) && order != []
    ensures var calls := Same(Elements(order), |order|);
            && (forall i | 0 <= i < |order| :: Selected(cursor, calls, i).Some? && Selected(cursor, calls, i).value in order)
            && (forall i, j | 0 <= i < j < |order| :: Selected(cursor, calls, i) != Selected(cursor, calls, j))
            && (forall x | x in order :: exists i :: 0 <= i < |order| && Selected(cursor, calls, i) == Some(x))
  {
    var n, calls := |order|, Same(Elements(order), |order|);
    var first := FirstSelection(order, cursor);
    hide Selected, Select;
    forall i | 0 <= i < n ensures Selected(cursor, calls, i) == Some(order[Round(first + i, n)]) {
      RoundRobin(order, cursor, first, i);
    }
    forall x | x in order ensures exists i :: 0 <= i < n && Selected(cursor, calls, i) == Some(x) {
      var k :| 0 <= k < n && order[k] == x;
      var i := RoundReaches(first, k, n);
      assert Selected(cursor, calls, i) == Some(x);
    }
  }
}
