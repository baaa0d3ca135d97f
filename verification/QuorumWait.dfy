/**
 * Waiting for the first `n` successes among several futures (log/utils/FutureUtils.h).
 */
module QuorumWait {

  /** One future finishing. */
  datatype Finished = Finished(index: nat, succeeded: bool)

  datatype Outcome = Pending | Value | Exception(failed: seq<nat>)

  function Successes(seen: seq<Finished>): (r: nat)
    ensures r <= |seen|
  {
    if seen == [] then 0 else
      var last := |seen| - 1; Successes(seen[..last]) + (if seen[last].succeeded then 1 else 0)
  }

  /** The futures that failed, in the order they did. */
  function Failed(seen: seq<Finished>): seq<nat> {
    if seen == [] then [] else
      var last := |seen| - 1; Failed(seen[..last]) + (if seen[last].succeeded then [] else [seen[last].index])
  }

  /** What one callback does to the promise; only the first settlement is kept. */
  function Settle(now: Outcome, n: int, total: nat, successes: nat, failed: seq<nat>): Outcome {
    if !now.Pending? then now
    else if successes == n then Value
    else if successes + |failed| == total then Exception(failed)
    else Pending
  }

  /** The promise after the futures in `seen` finished, in that order. */
  function OutcomeOf(n: int, total: nat, seen: seq<Finished>): Outcome {
    if seen == [] then Pending else
      Settle(OutcomeOf(n, total, seen[..|seen| - 1]), n, total, Successes(seen), Failed(seen))
  }

  /** The counters shared by the callbacks. */
  class Waiter {
    const n: int
    const total: nat
    var successCounter: nat
    var failureCounter: nat
    var exceptions: seq<nat>
    var promise: Outcome
    ghost var seen: seq<Finished>

    ghost predicate Valid()
      reads this
    {
      && successCounter == Successes(seen)
      && exceptions == Failed(seen)
      && failureCounter == |exceptions|
      && promise == OutcomeOf(n, total, seen)
    }

    constructor (n: int, total: nat)
      ensures Valid() && seen == [] && this.n == n && this.total == total
    {
      this.n, this.total := n, total;
      successCounter, failureCounter, exceptions, promise, seen := 0, 0, [], Pending, [];
    }

    /** The callback of one future. */
    method OnResult(index: nat, succeeded: bool)
      requires Valid()
      modifies this
      ensures Valid() && seen == old(seen) + [Finished(index, succeeded)]
    {
      if succeeded {
        successCounter := successCounter + 1;
      } else {
        exceptions := exceptions + [index];
        failureCounter := failureCounter + 1;
      }
      if successCounter == n {
        promise := if promise.Pending? then Value else promise;
      } else if successCounter + failureCounter == total {
        promise := if promise.Pending? then Exception(exceptions) else promise;
      }
      seen := seen + [Finished(index, succeeded)];
      assert seen[..|seen| - 1] == old(seen);
    }
  }

  /** Runs the futures in the order they finish and reports the promise. */
  method AnyNSuccessful(order: seq<Finished>, n: int) returns (outcome: Outcome)
    ensures outcome == OutcomeOf(n, |order|, order)
    ensures n >= 1 && order != [] ==> (outcome.Value? <==> Successes(order) >= n)
    ensures n >= 1 && order != [] && Successes(order) < n ==> outcome == Exception(Failed(order))
    ensures order == [] ==> outcome.Pending?
  {
    var waiter := new Waiter(n, |order|);
    for i := 0 to |order|
      invariant waiter.Valid() && waiter.n == n && waiter.total == |order|
      invariant fresh(waiter) && waiter.seen == order[..i]
    {
      waiter.OnResult(order[i].index, order[i].succeeded);
    }
    assert order[..|order|] == order;
    outcome := waiter.promise;
    if n >= 1 {
      QuorumWaitIsExact(n, |order|, order);
    }
  }

  lemma {:induction false} CountsAddUp(seen: seq<Finished>)
    ensures Successes(seen) + |Failed(seen)| == |seen|
  {
    if seen != [] {
      CountsAddUp(seen[..|seen| - 1]);
    }
  }

  /** The failed futures are named one by one, in the order in which they failed. */
  lemma {:induction false} FailedAt(seen: seq<Finished>, i: nat)
    requires i < |seen| && !seen[i].succeeded
    ensures var k := i - Successes(seen[..i]);
            0 <= k < |Failed(seen)| && Failed(seen)[k] == seen[i].index
    decreases |seen|
  {
    var last := |seen| - 1;
    CountsAddUp(seen[..last]);
    CountsAddUp(seen);
    if i < last {
      assert seen[..last][..i] == seen[..i];
      FailedAt(seen[..last], i);
    }
  }

  /**
   * At every moment of every order: a value exactly when `n` futures have succeeded, an exception exactly
   * when all have finished and fewer did, and the exception names every failure.
   */
  lemma {:induction false} QuorumWaitIsExact(n: int, total: nat, seen: seq<Finished>)
    requires n >= 1 && |seen| <= total
    ensures OutcomeOf(n, total, seen).Value? <==> Successes(seen) >= n
    ensures OutcomeOf(n, total, seen).Exception? <==> 0 < |seen| == total && Successes(seen) < n
    ensures OutcomeOf(n, total, seen).Exception? ==> OutcomeOf(n, total, seen).failed == Failed(seen)
  {
    if seen != [] {
      QuorumWaitIsExact(n, total, seen[..|seen| - 1]);
      CountsAddUp(seen);
    }
  }

  lemma {:induction false} SameSuccesses(a: seq<Finished>, b: seq<Finished>)
    requires multiset(a) == multiset(b)
    ensures Successes(a) == Successes(b)
    decreases |a|
  {
    assert |multiset(a)| == |a| && |multiset(b)| == |b|;
    if a != [] {
      var front, last := a[..|a| - 1], a[|a| - 1];
      assert a == front + [last];
      assert last in multiset(b);
      var i :| 0 <= i < |b| && b[i] == last;
      var rest := b[..i] + b[i + 1..];
      WithoutElement(b, i);
      assert multiset(front) == multiset(a) - multiset{last};
      assert multiset(rest) == multiset(b) - multiset{last};
      SameSuccesses(front, rest);
      SuccessesWithout(b, i);
    }
  }

  lemma WithoutElement(s: seq<Finished>, i: nat)
    requires i < |s|
    ensures multiset(s) == multiset(s[..i] + s[i + 1..]) + multiset{s[i]}
  {
    assert s == s[..i] + [s[i]] + s[i + 1..];
  }

  lemma {:induction false} SuccessesWithout(seen: seq<Finished>, i: nat)
    requires i < |seen|
    ensures Successes(seen) == Successes(seen[..i] + seen[i + 1..]) + (if seen[i].succeeded then 1 else 0)
    decreases |seen|
  {
    var last := |seen| - 1;
    var rest := seen[..i] + seen[i + 1..];
    if i == last {
      assert rest == seen[..last];
    } else {
      SuccessesWithout(seen[..last], i);
      assert rest[..|rest| - 1] == seen[..last][..i] + seen[..last][i + 1..];
    }
  }

  /** Whether the wait ends well does not depend on the order in which the futures finish. */
  lemma OrderDoesNotMatter(n: int, a: seq<Finished>, b: seq<Finished>)
    requires n >= 1 && multiset(a) == multiset(b)
    ensures OutcomeOf(n, |a|, a).Value? <==> OutcomeOf(n, |b|, b).Value?
    ensures OutcomeOf(n, |a|, a).Exception? <==> OutcomeOf(n, |b|, b).Exception?
  {
    SameSuccesses(a, b);
    assert |a| == |multiset(a)| == |multiset(b)| == |b|;
    QuorumWaitIsExact(n, |a|, a);
    QuorumWaitIsExact(n, |b|, b);
  }

  /** Waiting for none: a value exactly when the first future to finish failed, so there the order does matter. */
  lemma {:induction false} WaitForNone(total: nat, seen: seq<Finished>)
    requires |seen| <= total
    ensures OutcomeOf(0, total, seen).Value? <==> seen != [] && !seen[0].succeeded
    ensures OutcomeOf(0, total, seen).Exception? <==> 0 < |seen| == total && seen[0].succeeded
  {
    if seen != [] {
      CountsAddUp(seen);
      FirstSuccessCounts(seen);
      WaitForNone(total, seen[..|seen| - 1]);
    }
  }

  lemma {:induction false} FirstSuccessCounts(seen: seq<Finished>)
    requires seen != []
    ensures seen[0].succeeded ==> Successes(seen) >= 1
    decreases |seen|
  {
    if |seen| > 1 {
      FirstSuccessCounts(seen[..|seen| - 1]);
    }
  }

  /** Waiting for fewer than none never gives a value. */
  lemma {:induction false} WaitForLess(n: int, total: nat, seen: seq<Finished>)
    requires n < 0 && |seen| <= total
    ensures !OutcomeOf(n, total, seen).Value?
    ensures OutcomeOf(n, total, seen).Exception? <==> 0 < |seen| == total
  {
    if seen != [] {
      CountsAddUp(seen);
      WaitForLess(n, total, seen[..|seen| - 1]);
    }
  }
}
