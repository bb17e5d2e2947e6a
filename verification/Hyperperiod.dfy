/**
 Recurrence at the hyperperiod: checks that pass up to a common multiple H of the periods pass
 forever, because the run is back at its start at H. This makes the endless test decidable.
 */
module Hyperperiod {
  import opened Sums
  import opened Tasks
  import opened Engine
  import opened Bookkeeping
  import opened Deadlines
  import opened Utilisation

  /** Multiples of p order as their factors do. */
  lemma Factors(p: int, k: int, q: int)
    requires p > 0 && k * p < q * p + p
    ensures k <= q
  {
    assert k >= q + 1 ==> k * p >= (q + 1) * p;
    assert (q + 1) * p == q * p + p;
  }

  lemma MultipleOfPeriod(ts: seq<Task>, h: nat, i: nat) returns (q: nat)
    requires CommonMultiple(ts, h) && i < |ts|
    ensures ts[i].p > 0 && h == q * ts[i].p && q == h / ts[i].p
  {
    q := h / ts[i].p;
  }

  /** An idle step cannot jump over H, where every task is released. */
  lemma RestStopsAtHyperperiod(alg: Alg, ts: seq<Task>, h: nat, n: nat)
    requires TaskSet(ts) && CommonMultiple(ts, h)
    requires Idle(At(alg, ts, n).tasks) && At(alg, ts, n).now < h
    ensures At(alg, ts, n + 1).now <= h
  {
    NextState(alg, ts, n);
    var x := At(alg, ts, n);
    hide At;
    TaskKeepsBooks(alg, ts, n, 0);
    var q := MultipleOfPeriod(ts, h, 0);
    Factors(ts[0].p, x.done[0], q);
    assert x.done[0] * ts[0].p <= q * ts[0].p;
  }

  /** A head that passed its check runs no further than its deadline. */
  lemma HeadRunsToDeadline(alg: Alg, ts: seq<Task>, n: nat, i: nat)
    requires TaskSet(ts) && i < |ts|
    requires !Idle(At(alg, ts, n).tasks) && i == Head(alg, At(alg, ts, n).tasks)
    requires Check(alg, At(alg, ts, n).tasks)
    ensures At(alg, ts, n + 1).now <= Due(ts[i], At(alg, ts, n).done[i])
    ensures At(alg, ts, n).done[i] * ts[i].p <= At(alg, ts, n).now
  {
    CheckMeans(alg, At(alg, ts, n).tasks);
    TaskKeepsBooks(alg, ts, n, i);
    NextState(alg, ts, n);
  }

  lemma GrantStopsAtHyperperiod(alg: Alg, ts: seq<Task>, h: nat, n: nat)
    requires TaskSet(ts) && CommonMultiple(ts, h)
    requires !Idle(At(alg, ts, n).tasks) && At(alg, ts, n).now < h
    requires Check(alg, At(alg, ts, n).tasks)
    ensures At(alg, ts, n + 1).now <= h
  {
    hide At, Check;
    var i := Head(alg, At(alg, ts, n).tasks);
    var k := At(alg, ts, n).done[i];
    hide Idle, Head, Books, TaskBooks;
    HeadRunsToDeadline(alg, ts, n, i);
    assert ts[i].WellFormed();
    var q := MultipleOfPeriod(ts, h, i);
    assert (k + 1) * ts[i].p == k * ts[i].p + ts[i].p;
    Factors(ts[i].p, k + 1, q);
    Scaled(k + 1, q, ts[i].p);
  }

  lemma HyperperiodIsStep(alg: Alg, ts: seq<Task>, h: nat) returns (n: nat)
    requires TaskSet(ts) && CommonMultiple(ts, h) && PassesUntil(alg, ts, h)
    ensures At(alg, ts, n).now == h && n > 0
    ensures Check(alg, At(alg, ts, n).tasks)
  {
    hide At, Check, TaskSet, CommonMultiple, Idle;
    n := StepAt(alg, ts, h);
    if At(alg, ts, n).now < h {
      if Idle(At(alg, ts, n).tasks) {
        RestStopsAtHyperperiod(alg, ts, h, n);
      } else {
        GrantStopsAtHyperperiod(alg, ts, h, n);
      }
    }
    StartsAtZero(alg, ts);
    HyperperiodIsPositive(ts, h);
  }

  lemma HyperperiodIsPositive(ts: seq<Task>, h: nat)
    requires CommonMultiple(ts, h)
    ensures h > 0
  {
  }

  /** At H every task has completed exactly its H / p jobs and starts afresh. */
  lemma TaskRestarts(alg: Alg, ts: seq<Task>, h: nat, n: nat, i: nat)
    requires TaskSet(ts) && CommonMultiple(ts, h) && i < |ts|
    requires At(alg, ts, n).now == h && Check(alg, At(alg, ts, n).tasks)
    ensures At(alg, ts, n).tasks[i] == ts[i].Reset()
    ensures ts[i].p > 0 && At(alg, ts, n).done[i] * ts[i].p == h
  {
    hide At, Check;
    JobsKeepUp(alg, ts, n, i);
    TaskKeepsBooks(alg, ts, n, i);
    var k, p := At(alg, ts, n).done[i], ts[i].p;
    var q := MultipleOfPeriod(ts, h, i);
    Factors(p, q, k);
    Factors(p, k, q);
  }

  lemma RunRestarts(alg: Alg, ts: seq<Task>, h: nat, n: nat)
    requires TaskSet(ts) && CommonMultiple(ts, h)
    requires At(alg, ts, n).now == h && Check(alg, At(alg, ts, n).tasks)
    ensures At(alg, ts, n).tasks == Restart(ts)
  {
    hide At, Check, TaskSet, CommonMultiple;
    forall i | 0 <= i < |ts|
      ensures At(alg, ts, n).tasks[i] == ts[i].Reset()
    {
      TaskRestarts(alg, ts, h, n, i);
    }
    assert At(alg, ts, n).tasks == Restart(ts);
  }

  /** y continues as x does, a hyperperiod later. */
  ghost predicate Later(ts: seq<Task>, h: nat, x: Run, y: Run) {
    && |x.tasks| == |x.done| == |y.tasks| == |y.done| == |ts|
    && y.tasks == x.tasks
    && y.now == x.now + h
    && forall i :: 0 <= i < |ts| ==> ts[i].p > 0 && (y.done[i] - x.done[i]) * ts[i].p == h
  }

  lemma LaterAdvances(alg: Alg, ts: seq<Task>, h: nat, x: Run, y: Run)
    requires Later(ts, h, x, y)
    ensures Later(ts, h, Advance(alg, x), Advance(alg, y))
  {
    hide Idle, Head, RunHead, Shift, MinR, Finishes, Delta;
  }

  lemma {:induction false} RunRepeats(alg: Alg, ts: seq<Task>, h: nat, n: nat, m: nat)
    requires TaskSet(ts) && CommonMultiple(ts, h)
    requires At(alg, ts, n).now == h && Check(alg, At(alg, ts, n).tasks)
    ensures Later(ts, h, At(alg, ts, m), At(alg, ts, n + m))
  {
    hide Advance, Check, At, TaskSet, CommonMultiple;
    StartsAtZero(alg, ts);
    RunRestarts(alg, ts, h, n);
    if m == 0 {
      forall i | 0 <= i < |ts|
        ensures ts[i].p > 0 && At(alg, ts, n).done[i] * ts[i].p == h
      {
        TaskRestarts(alg, ts, h, n, i);
      }
    } else {
      RunRepeats(alg, ts, h, n, m - 1);
      NextState(alg, ts, m - 1);
      NextState(alg, ts, n + m - 1);
      LaterAdvances(alg, ts, h, At(alg, ts, m - 1), At(alg, ts, n + m - 1));
    }
  }

  lemma {:induction false} RepeatPasses(alg: Alg, ts: seq<Task>, h: nat, n: nat, m: nat)
    requires TaskSet(ts) && CommonMultiple(ts, h) && PassesUntil(alg, ts, h)
    requires n > 0 && At(alg, ts, n).now == h
    ensures Check(alg, At(alg, ts, m).tasks)
    decreases m
  {
    hide Check, At, TaskSet, CommonMultiple;
    if m >= n {
      RepeatPasses(alg, ts, h, n, m - n);
      RunRepeats(alg, ts, h, n, m - n);
    } else {
      TimeIsMonotone(alg, ts, m, n);
    }
  }

  /** Passing every check up to time H is passing forever. */
  lemma HyperperiodDecides(alg: Alg, ts: seq<Task>, h: nat)
    requires TaskSet(ts) && CommonMultiple(ts, h)
    ensures PassesUntil(alg, ts, h) <==> PassesForever(alg, ts)
  {
    hide Check, At, TaskSet, CommonMultiple;
    if PassesUntil(alg, ts, h) {
      var n := HyperperiodIsStep(alg, ts, h);
      forall m: nat
        ensures Check(alg, At(alg, ts, m).tasks)
      {
        RepeatPasses(alg, ts, h, n, m);
      }
    }
  }

  /** A passing run reaches H exactly, and from there each state is the state one hyperperiod before. */
  lemma HyperperiodRecurrence(alg: Alg, ts: seq<Task>, h: nat) returns (n: nat)
    requires TaskSet(ts) && CommonMultiple(ts, h) && PassesUntil(alg, ts, h)
    ensures n > 0 && At(alg, ts, n).now == h
    ensures At(alg, ts, n).tasks == Restart(ts)
    ensures forall m: nat :: Later(ts, h, At(alg, ts, m), At(alg, ts, n + m))
  {
    hide Check, At, TaskSet, CommonMultiple;
    n := HyperperiodIsStep(alg, ts, h);
    RunRestarts(alg, ts, h, n);
    StartsAtZero(alg, ts);
    forall m: nat
      ensures Later(ts, h, At(alg, ts, m), At(alg, ts, n + m))
    {
      RunRepeats(alg, ts, h, n, m);
    }
  }

  /** So the verdict after H + 1 rounds of run_test_on is the verdict of the endless test. */
  lemma VerdictAtHyperperiod(alg: Alg, ts: seq<Task>, h: nat)
    requires TaskSet(ts) && CommonMultiple(ts, h)
    ensures Passes(alg, ts, h + 1) <==> PassesForever(alg, ts)
  {
    hide Check, At, TaskSet, CommonMultiple, Books;
    if Passes(alg, ts, h + 1) {
      forall n: nat | At(alg, ts, n).now <= h
        ensures Check(alg, At(alg, ts, n).tasks)
      {
        RunKeepsBooks(alg, ts, n);
      }
      HyperperiodDecides(alg, ts, h);
    }
  }
}
