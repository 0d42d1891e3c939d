// The retained owner batch of the read-model worker: a cursor over its pairs and an adaptive retry window.
module ReadModelBatch {

  datatype Pair = Pair(workspace: nat, route: nat)

  // Why an attempt failed. Only a child deadline that the operation itself reports narrows the retry.
  datatype Failure = Failure(parentDone: bool, attemptDeadline: bool, operationDeadline: bool)

  // The numbers that decide the next statement, for a batch of n pairs.
  datatype Progress = Progress(n: nat, next: nat, retryEnd: nat, retryWidth: nat, limit: nat, fastCommits: nat)

  function Min(a: int, b: int): int { if a <= b then a else b }

  function Max(a: int, b: int): int { if a >= b then a else b }

  // ---- What each step does to the numbers -----------------------------------------------------------------

  function PairLimit(limit: nat, budget: nat): nat {
    if limit > 0 then Min(limit, budget) else budget
  }

  function PrefixEnd(p: Progress, budget: nat): nat {
    var end := Min(p.next + PairLimit(p.limit, budget), p.n);
    if p.retryEnd > p.next && p.retryWidth > 0 then Min(end, Min(p.retryEnd, p.next + p.retryWidth)) else end
  }

  predicate Narrows(p: Progress, failure: Failure, start: nat, end: nat) {
    !failure.parentDone && failure.attemptDeadline && failure.operationDeadline && start == p.next && end <= p.n && end - start > 1
  }

  function AfterFailure(p: Progress, failure: Failure, start: nat, end: nat): Progress {
    if !Narrows(p, failure, start, end) then p.(fastCommits := 0)
    else p.(retryEnd := if p.retryEnd <= start then end else p.retryEnd, retryWidth := (end - start) / 2,
            limit := (end - start) / 2, fastCommits := 0)
  }

  function Learned(p: Progress, pairs: nat, elapsed: int, timeout: int, budget: nat): Progress {
    if budget == 0 || pairs < PairLimit(p.limit, budget) || elapsed <= 0 || timeout <= 0 then p.(fastCommits := 0)
    else if elapsed > timeout / 2 && pairs > 1 then p.(limit := pairs / 2, fastCommits := 0)
    else if p.limit == 0 then p
    else if elapsed > timeout / 4 then p.(fastCommits := 0)
    else if p.fastCommits + 1 < 2 then p.(fastCommits := p.fastCommits + 1)
    else p.(fastCommits := 0, limit := if p.limit >= budget - p.limit then 0 else 2 * p.limit)
  }

  function AfterCommit(p: Progress, end: nat, elapsed: int, timeout: int, budget: nat): Progress
    requires p.next <= end
  {
    var committed := p.(next := end, retryEnd := if end >= p.retryEnd then 0 else p.retryEnd,
                        retryWidth := if end >= p.retryEnd then 0 else p.retryWidth);
    if committed.retryEnd == 0 then Learned(committed, end - p.next, elapsed, timeout, budget) else committed
  }

  // ---- The worker's objects ---------------------------------------------------------------------------------

  class Window {
    var limit: nat
    var fastCommits: nat

    constructor ()
      ensures limit == 0 && fastCommits == 0
    {
      limit, fastCommits := 0, 0;
    }

    method Deadline(attempted: nat)
      modifies this
      ensures limit == Max(1, attempted / 2) && fastCommits == 0
    {
      limit, fastCommits := Max(1, attempted / 2), 0;
    }

    method Committed(pairs: nat, elapsed: int, timeout: int, budget: nat, ghost p: Progress)
      requires p.limit == limit && p.fastCommits == fastCommits
      modifies this
      ensures var q := Learned(p, pairs, elapsed, timeout, budget); q.limit == limit && q.fastCommits == fastCommits
    {
      if budget <= 0 || pairs < PairLimit(limit, budget) || elapsed <= 0 || timeout <= 0 {
        fastCommits := 0;
        return;
      }
      if elapsed > timeout / 2 && pairs > 1 {
        Deadline(pairs);
        return;
      }
      if limit == 0 { return; }
      if elapsed > timeout / 4 {
        fastCommits := 0;
        return;
      }
      fastCommits := fastCommits + 1;
      if fastCommits < 2 { return; }
      fastCommits := 0;
      if limit >= budget - limit {
        limit := 0;
      } else {
        limit := limit * 2;
      }
    }
  }

  class Batch {
    const routes: seq<nat>
    const pairs: seq<Pair>
    const window: Window
    var next: nat
    var retryEnd: nat
    var retryWidth: nat

    ghost function State(): Progress
      reads this, window
    {
      Progress(|pairs|, next, retryEnd, retryWidth, window.limit, window.fastCommits)
    }

    constructor (routes: seq<nat>, pairs: seq<Pair>)
      ensures this.routes == routes && this.pairs == pairs && fresh(window)
      ensures State() == Progress(|pairs|, 0, 0, 0, 0, 0)
    {
      this.routes, this.pairs := routes, pairs;
      next, retryEnd, retryWidth := 0, 0, 0;
      window := new Window();
    }

    method End(budget: nat) returns (end: nat)
      ensures end == PrefixEnd(State(), budget)
    {
      end := Min(next + PairLimit(window.limit, budget), |pairs|);
      if retryEnd > next && retryWidth > 0 {
        end := Min(end, Min(retryEnd, next + retryWidth));
      }
    }

    // A failed statement, including a commit whose response was lost, never moves the cursor.
    method Failed(failure: Failure, start: nat, end: nat) returns (narrowed: bool)
      modifies this, window
      ensures State() == AfterFailure(old(State()), failure, start, end)
      ensures narrowed == Narrows(old(State()), failure, start, end)
    {
      window.fastCommits := 0;
      if failure.parentDone || !failure.attemptDeadline || !failure.operationDeadline || start != next || end > |pairs| || end - start <= 1 {
        return false;
      }
      if retryEnd <= start {
        retryEnd := end;
      }
      retryWidth := Max(1, (end - start) / 2);
      window.Deadline(end - start);
      return true;
    }

    method Commit(end: nat, elapsed: int, timeout: int, budget: nat)
      requires next <= end
      modifies this, window
      ensures State() == AfterCommit(old(State()), end, elapsed, timeout, budget)
    {
      var start := next;
      next := end;
      if end >= retryEnd {
        retryEnd, retryWidth := 0, 0;
      }
      if retryEnd == 0 {
        window.Committed(end - start, elapsed, timeout, budget, State());
      }
    }
  }

  // ---- Progress ---------------------------------------------------------------------------------------------

  // The learned limit is unset or below the budget, and a retry interval lies ahead of the cursor.
  ghost predicate Steady(p: Progress, budget: nat) {
    && budget > 0 && p.next <= p.n && p.limit < budget && p.fastCommits < 2
    && (if p.retryEnd == 0 then p.retryWidth == 0 else p.next < p.retryEnd <= p.n && 0 < p.retryWidth)
  }

  function Width(p: Progress, budget: nat): int {
    PrefixEnd(p, budget) - p.next
  }

  // The next statement always moves past the cursor, within the budget and the pairs that are left.
  lemma PrefixPasses(p: Progress, budget: nat)
    requires Steady(p, budget) && p.next < p.n
    ensures 1 <= Width(p, budget) <= budget && PrefixEnd(p, budget) <= p.n
  {
  }

  lemma FailureKeepsSteady(p: Progress, failure: Failure, budget: nat)
    requires Steady(p, budget) && p.next < p.n
    ensures Steady(AfterFailure(p, failure, p.next, PrefixEnd(p, budget)), budget)
  {
  }

  // A deadline at a cursor at least halves the next statement, and keeps the interval that timed out.
  lemma DeadlineHalves(p: Progress, failure: Failure, budget: nat)
    requires Steady(p, budget) && p.next < p.n && Narrows(p, failure, p.next, PrefixEnd(p, budget))
    ensures var q := AfterFailure(p, failure, p.next, PrefixEnd(p, budget));
            && q.next == p.next && 2 * Width(q, budget) <= Width(p, budget)
            && q.retryEnd >= PrefixEnd(p, budget)
  {
  }

  lemma CommitKeepsSteady(p: Progress, elapsed: int, timeout: int, budget: nat)
    requires Steady(p, budget)
    ensures var q := AfterCommit(p, PrefixEnd(p, budget), elapsed, timeout, budget);
            Steady(q, budget) && q.next == PrefixEnd(p, budget)
  {
  }

  // Inside a retry interval every statement stays at or below the width that was learned at its deadline.
  lemma IntervalStaysNarrow(p: Progress, elapsed: int, timeout: int, budget: nat)
    requires Steady(p, budget) && p.retryEnd > 0
    ensures var q := AfterCommit(p, PrefixEnd(p, budget), elapsed, timeout, budget);
            && PrefixEnd(p, budget) <= p.retryEnd && Width(p, budget) <= p.retryWidth
            && (q.next < p.retryEnd ==> q.retryEnd == p.retryEnd && q.retryWidth == p.retryWidth)
  {
  }

  // ---- How many attempts drain a batch ------------------------------------------------------------------------

  function Log2(n: nat): nat
    requires n > 0
  {
    if n == 1 then 0 else 1 + Log2(n / 2)
  }

  function Pow2(n: nat): nat {
    if n == 0 then 1 else 2 * Pow2(n - 1)
  }

  lemma {:induction false} Log2Floor(n: nat)
    requires n > 0
    ensures Pow2(Log2(n)) <= n < Pow2(Log2(n) + 1)
  {
    if n > 1 { Log2Floor(n / 2); }
  }

  lemma {:induction false} Log2Monotone(a: nat, b: nat)
    requires 0 < a <= b
    ensures Log2(a) <= Log2(b)
  {
    if a > 1 { Log2Monotone(a / 2, b / 2); }
  }

  datatype Attempt = Deadlined | Committed(elapsed: int, timeout: int)

  const DEADLINE := Failure(false, true, true)

  function AfterAttempt(p: Progress, attempt: Attempt, budget: nat): (q: Progress)
    requires Steady(p, budget) && p.next < p.n
    ensures Steady(q, budget)
  {
    PrefixPasses(p, budget);
    FailureKeepsSteady(p, DEADLINE, budget);
    match attempt
    case Deadlined => AfterFailure(p, DEADLINE, p.next, PrefixEnd(p, budget))
    case Committed(elapsed, timeout) =>
      CommitKeepsSteady(p, elapsed, timeout, budget);
      AfterCommit(p, PrefixEnd(p, budget), elapsed, timeout, budget)
  }

  // A run of attempts on a batch that is not drained, in which statements of one pair succeed.
  ghost predicate Attempts(p: Progress, attempts: seq<Attempt>, budget: nat)
    requires Steady(p, budget)
    decreases |attempts|
  {
    attempts != [] ==>
      && p.next < p.n && (attempts[0].Deadlined? ==> Width(p, budget) > 1)
      && Attempts(AfterAttempt(p, attempts[0], budget), attempts[1..], budget)
  }

  function Times(a: nat, b: nat): nat { a * b }

  ghost function Potential(p: Progress, budget: nat): nat
    requires Steady(p, budget)
  {
    if p.next == p.n then 0
    else
      PrefixPasses(p, budget);
      Times(p.n - p.next - 1, Log2(budget) + 1) + Log2(Width(p, budget)) + 1
  }

  lemma PotentialBound(p: Progress, budget: nat, left: nat)
    requires Steady(p, budget) && p.n - p.next <= left
    ensures Potential(p, budget) <= Times(left, Log2(budget) + 1)
  {
    if p.next < p.n {
      PrefixPasses(p, budget);
      Log2Monotone(Width(p, budget), budget);
      TimesStep(p.n - p.next, left, Log2(budget) + 1);
    }
  }

  lemma TimesStep(a: nat, b: nat, c: nat)
    requires 0 < a <= b
    ensures Times(a - 1, c) + c <= Times(b, c)
  {
    assert (b - a) * c >= 0;
  }

  lemma AttemptSpends(p: Progress, attempt: Attempt, budget: nat)
    requires Steady(p, budget) && p.next < p.n && (attempt.Deadlined? ==> Width(p, budget) > 1)
    ensures Potential(AfterAttempt(p, attempt, budget), budget) < Potential(p, budget)
  {
    PrefixPasses(p, budget);
    var q := AfterAttempt(p, attempt, budget);
    if attempt.Deadlined? {
      DeadlineHalves(p, DEADLINE, budget);
      PrefixPasses(q, budget);
      Log2Monotone(Width(q, budget), Width(p, budget) / 2);
    } else {
      PotentialBound(q, budget, p.n - p.next - 1);
    }
  }

  lemma {:induction false} AttemptsBounded(p: Progress, attempts: seq<Attempt>, budget: nat)
    requires Steady(p, budget) && Attempts(p, attempts, budget)
    ensures |attempts| <= Potential(p, budget)
    decreases |attempts|
  {
    if attempts != [] {
      AttemptSpends(p, attempts[0], budget);
      AttemptsBounded(AfterAttempt(p, attempts[0], budget), attempts[1..], budget);
    }
  }

  // If one-pair statements succeed, a batch of n pairs drains in at most n * (floor(log2 budget) + 1) attempts.
  lemma BatchDrains(n: nat, attempts: seq<Attempt>, budget: nat)
    requires budget > 0 && Attempts(Progress(n, 0, 0, 0, 0, 0), attempts, budget)
    ensures |attempts| <= n * (Log2(budget) + 1)
  {
    AttemptsBounded(Progress(n, 0, 0, 0, 0, 0), attempts, budget);
    PotentialBound(Progress(n, 0, 0, 0, 0, 0), budget, n);
  }

  // ---- How the width moves ------------------------------------------------------------------------------------

  // A failed statement is narrowed exactly if its own deadline passed while the worker's had not, the operation
  // itself reports it, and there is more than one pair; every other failure is repeated as it was.
  lemma FailureNarrowsExactly(p: Progress, failure: Failure, budget: nat)
    requires Steady(p, budget) && p.next < p.n
    ensures var q := AfterFailure(p, failure, p.next, PrefixEnd(p, budget));
            && q.next == p.next
            && (!failure.parentDone && failure.attemptDeadline && failure.operationDeadline && Width(p, budget) > 1 ==>
                  Width(q, budget) == Width(p, budget) / 2)
            && (failure.parentDone || !failure.attemptDeadline || !failure.operationDeadline || Width(p, budget) == 1 ==>
                  PrefixEnd(q, budget) == PrefixEnd(p, budget))
  {
  }

  // A statement as wide as the window allows, with no retry interval ahead of it or left behind it.
  ghost predicate FullStatement(p: Progress, budget: nat) {
    p.next < p.n && p.retryEnd == 0 && Width(p, budget) == PairLimit(p.limit, budget)
  }

  // Only a full statement that took more than half of its timeout narrows the window, to half of what it did; and
  // only the second in a row that took at most a quarter widens it, to twice as much or to the whole budget.
  lemma CommitMovesLimit(p: Progress, elapsed: int, timeout: int, budget: nat)
    requires Steady(p, budget) && FullStatement(p, budget) && elapsed > 0 && timeout > 0
    ensures var q := AfterCommit(p, PrefixEnd(p, budget), elapsed, timeout, budget);
            var before, after := PairLimit(p.limit, budget), PairLimit(q.limit, budget);
            && (2 * elapsed > timeout + 1 && before > 1 ==> after == before / 2)
            && (after < before ==> 2 * elapsed > timeout && after == before / 2)
            && (after > before ==> 4 * elapsed <= timeout && p.fastCommits == 1 && after == Min(2 * before, budget))
            && (4 * elapsed <= timeout && p.fastCommits == 1 ==> after == Min(2 * before, budget))
            && (4 * elapsed <= timeout && p.limit > 0 && p.fastCommits == 0 ==> q.fastCommits == 1)
  {
  }

  // A run of full statements that each take at most a quarter of their timeout.
  ghost predicate FastRun(p: Progress, attempts: seq<Attempt>, budget: nat)
    requires Steady(p, budget)
    decreases |attempts|
  {
    attempts != [] ==>
      && FullStatement(p, budget) && attempts[0].Committed?
      && 0 < 4 * attempts[0].elapsed <= attempts[0].timeout
      && FastRun(AfterAttempt(p, attempts[0], budget), attempts[1..], budget)
  }

  ghost function AfterAttempts(p: Progress, attempts: seq<Attempt>, budget: nat): (q: Progress)
    requires Steady(p, budget) && FastRun(p, attempts, budget)
    ensures Steady(q, budget)
    decreases |attempts|
  {
    if attempts == [] then p else AfterAttempts(AfterAttempt(p, attempts[0], budget), attempts[1..], budget)
  }

  // How many fast statements the window still needs.
  ghost function Missing(p: Progress, budget: nat): int
    requires budget > 0
  {
    if p.limit == 0 then 0 else 2 * (Log2(budget) - Log2(p.limit)) + 2 - p.fastCommits
  }

  lemma FastCommitRecovers(p: Progress, attempt: Attempt, budget: nat)
    requires Steady(p, budget) && FullStatement(p, budget) && attempt.Committed? && 0 < 4 * attempt.elapsed <= attempt.timeout
    ensures var q := AfterAttempt(p, attempt, budget);
            (p.limit == 0 ==> q.limit == 0) && Missing(q, budget) <= (if p.limit == 0 then 0 else Missing(p, budget) - 1)
  {
    if p.limit > 0 {
      Log2Monotone(p.limit, budget);
      var q := AfterAttempt(p, attempt, budget);
      if p.fastCommits == 1 && 2 * p.limit < budget {
        assert q.limit == 2 * p.limit && Log2(2 * p.limit) == 1 + Log2(p.limit);
      }
    }
  }

  lemma {:induction false} FastRunRecovers(p: Progress, attempts: seq<Attempt>, budget: nat)
    requires Steady(p, budget) && FastRun(p, attempts, budget)
    ensures AfterAttempts(p, attempts, budget).limit == 0 || |attempts| < Missing(p, budget)
    decreases |attempts|
  {
    if attempts == [] {
      if p.limit > 0 { Log2Monotone(p.limit, budget); }
    } else {
      FastCommitRecovers(p, attempts[0], budget);
      FastRunRecovers(AfterAttempt(p, attempts[0], budget), attempts[1..], budget);
    }
  }

  // From any width, 2 * (floor(log2 budget) + 1) fast statements bring the window back to the whole budget.
  lemma WindowRecovers(p: Progress, attempts: seq<Attempt>, budget: nat)
    requires Steady(p, budget) && FastRun(p, attempts, budget) && |attempts| >= 2 * (Log2(budget) + 1)
    ensures var q := AfterAttempts(p, attempts, budget); PairLimit(q.limit, budget) == budget
  {
    FastRunRecovers(p, attempts, budget);
  }
}
