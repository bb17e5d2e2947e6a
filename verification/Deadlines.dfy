/**
 What the schedulability check means: it passes forever exactly when every job of every task
 meets its deadline in the unguarded run.
 */
module Deadlines {
  import opened Tasks
  import opened Engine
  import opened Bookkeeping

  /** Step m of the run completes job k of task i. */
  ghost predicate Completes(alg: Alg, ts: seq<Task>, m: nat, i: nat, k: nat)
    requires i < |ts|
  {
    At(alg, ts, m).done[i] == k && At(alg, ts, m + 1).done[i] == k + 1
  }

  /** Job k of a task is released at k * p and due d quanta later. */
  function Due(t: Task, k: nat): int {
    k * t.p + t.d
  }

  ghost predicate OnTime(alg: Alg, ts: seq<Task>, m: nat, i: nat, k: nat)
    requires i < |ts|
  {
    && Completes(alg, ts, m, i, k)
    && k * ts[i].p <= At(alg, ts, m).now
    && At(alg, ts, m + 1).now <= Due(ts[i], k)
  }

  ghost predicate MeetsDeadline(alg: Alg, ts: seq<Task>, i: nat, k: nat)
    requires i < |ts|
  {
    exists m :: OnTime(alg, ts, m, i, k)
  }

  ghost predicate EveryJobOnTime(alg: Alg, ts: seq<Task>) {
    forall i: nat, k: nat | i < |ts| :: MeetsDeadline(alg, ts, i, k)
  }

  /** A step completes at most one job: the head's, if any. */
  lemma StepOfJob(alg: Alg, ts: seq<Task>, n: nat, i: nat)
    requires TaskSet(ts) && i < |ts|
    ensures
      var x, y := At(alg, ts, n), At(alg, ts, n + 1);
      || y.done[i] == x.done[i]
      || (y.done[i] == x.done[i] + 1 && !Idle(x.tasks) && i == Head(alg, x.tasks) && Finishes(alg, x.tasks[i])
          && y.now == x.now + Delta(alg, x.tasks[i]))
  {
    assert At(alg, ts, n + 1) == Advance(alg, At(alg, ts, n));
  }

  lemma {:induction false} DoneIsMonotone(alg: Alg, ts: seq<Task>, m: nat, n: nat, i: nat)
    requires TaskSet(ts) && i < |ts| && m <= n
    ensures At(alg, ts, m).done[i] <= At(alg, ts, n).done[i]
  {
    hide *;
    if m < n {
      DoneIsMonotone(alg, ts, m, n - 1, i);
      StepOfJob(alg, ts, n - 1, i);
    }
  }

  lemma {:induction false} CompletionStep(alg: Alg, ts: seq<Task>, n: nat, i: nat, k: nat) returns (m: nat)
    requires TaskSet(ts) && i < |ts|
    requires k < At(alg, ts, n).done[i]
    ensures m < n && Completes(alg, ts, m, i, k)
  {
    hide At, TaskSet, Idle, Head, Finishes, Delta;
    StartsAtZero(alg, ts);
    StepOfJob(alg, ts, n - 1, i);
    if At(alg, ts, n - 1).done[i] == k {
      m := n - 1;
    } else {
      m := CompletionStep(alg, ts, n - 1, i, k);
    }
  }

  /** Sound: a job completed by a step whose check passed is on time. */
  lemma PassedCompletionIsOnTime(alg: Alg, ts: seq<Task>, m: nat, i: nat, k: nat)
    requires TaskSet(ts) && i < |ts|
    requires Check(alg, At(alg, ts, m).tasks)
    requires Completes(alg, ts, m, i, k)
    ensures OnTime(alg, ts, m, i, k)
  {
    StepOfJob(alg, ts, m, i);
    TaskKeepsBooks(alg, ts, m, i);
    CheckMeans(alg, At(alg, ts, m).tasks);
  }

  /** Every job completed while the checks pass was completed on time. */
  lemma CompletedOnTime(alg: Alg, ts: seq<Task>, n: nat, i: nat, k: nat) returns (m: nat)
    requires TaskSet(ts) && Passes(alg, ts, n)
    requires i < |ts| && k < At(alg, ts, n).done[i]
    ensures m < n && OnTime(alg, ts, m, i, k)
  {
    m := CompletionStep(alg, ts, n, i, k);
    PassedCompletionIsOnTime(alg, ts, m, i, k);
  }

  /** Job k of task i is outstanding and already short of time. */
  ghost predicate Doomed(alg: Alg, ts: seq<Task>, n: nat, i: nat, k: nat)
    requires i < |ts|
  {
    var t := At(alg, ts, n).tasks[i];
    At(alg, ts, n).done[i] == k && Ready(t) && t.CompletionTime() > t.RemainingTime()
  }

  /** Laxity never grows: waiting costs the whole step, running gains what it costs. */
  lemma LaxityNeverGrows(alg: Alg, t: Task, h: Task)
    requires Delta(alg, h) > 0
    ensures Wait(t, Delta(alg, h)).RemainingTime() - Wait(t, Delta(alg, h)).CompletionTime() < t.RemainingTime() - t.CompletionTime()
    ensures !Finishes(alg, t) ==>
              Charged(alg, t).RemainingTime() - Charged(alg, t).CompletionTime() == t.RemainingTime() - t.CompletionTime()
  {
  }

  /** The step of a ready task, when it is not the head and when it is. */
  lemma ReadyTaskSteps(alg: Alg, ts: seq<Task>, n: nat, i: nat)
    requires i < |ts| && Ready(At(alg, ts, n).tasks[i])
    ensures
      var x, y := At(alg, ts, n), At(alg, ts, n + 1);
      && !Idle(x.tasks)
      && var h := Head(alg, x.tasks);
      && y.now == x.now + Delta(alg, x.tasks[h])
      && (i != h ==> y.tasks[i] == Wait(x.tasks[i], Delta(alg, x.tasks[h])) && y.done[i] == x.done[i])
      && (i == h ==> y.tasks[i] == Charged(alg, x.tasks[i]) && y.done[i] == x.done[i] + if Finishes(alg, x.tasks[i]) then 1 else 0)
  {
    NextState(alg, ts, n);
  }

  /** A job short of time stays so until it completes, and then it is late. */
  lemma DoomedStaysDoomed(alg: Alg, ts: seq<Task>, n: nat, i: nat, k: nat)
    requires TaskSet(ts) && i < |ts| && Doomed(alg, ts, n, i, k)
    ensures Doomed(alg, ts, n + 1, i, k) || (Completes(alg, ts, n, i, k) && Due(ts[i], k) < At(alg, ts, n + 1).now)
  {
    hide At, Idle, Head, TaskSet;
    ReadyTaskSteps(alg, ts, n, i);
    var x := At(alg, ts, n);
    var h := Head(alg, x.tasks);
    TaskKeepsBooks(alg, ts, n, i);
    TaskKeepsBooks(alg, ts, n, h);
    LaxityNeverGrows(alg, x.tasks[i], x.tasks[h]);
  }

  /** A task the check flags without being short yet becomes so in the very next step, in which it only waits. */
  lemma FlaggedIsDoomed(alg: Alg, ts: seq<Task>, n: nat, i: nat)
    requires TaskSet(ts) && i < |ts|
    requires Ready(At(alg, ts, n).tasks[i]) && i != Head(alg, At(alg, ts, n).tasks)
    requires At(alg, ts, n).tasks[i].CompletionTime() >= At(alg, ts, n).tasks[i].RemainingTime()
    ensures Doomed(alg, ts, n + 1, i, At(alg, ts, n).done[i])
  {
    hide At, Idle, Head, TaskSet;
    ReadyTaskSteps(alg, ts, n, i);
    var x := At(alg, ts, n);
    var h := Head(alg, x.tasks);
    TaskKeepsBooks(alg, ts, n, i);
    TaskKeepsBooks(alg, ts, n, h);
    LaxityNeverGrows(alg, x.tasks[i], x.tasks[h]);
  }

  lemma {:induction false} DoomedIsLate(alg: Alg, ts: seq<Task>, n: nat, i: nat, k: nat, m: nat)
    requires TaskSet(ts) && i < |ts| && Doomed(alg, ts, n, i, k)
    requires Completes(alg, ts, m, i, k)
    ensures Due(ts[i], k) < At(alg, ts, m + 1).now
    decreases m - n
  {
    hide At, TaskSet;
    if m < n {
      DoneIsMonotone(alg, ts, m + 1, n, i);
      assert false;
    }
    DoomedStaysDoomed(alg, ts, n, i, k);
    if m > n {
      DoneIsMonotone(alg, ts, n + 1, m, i);
      DoomedIsLate(alg, ts, n + 1, i, k, m);
    }
  }

  /** Task i fails the check. */
  predicate Flagged(alg: Alg, s: seq<Task>, i: nat) {
    && i < |s| && Ready(s[i])
    && if i == Head(alg, s) then s[i].CompletionTime() > s[i].RemainingTime()
       else s[i].CompletionTime() >= s[i].RemainingTime()
  }

  /** Every current job that fails the check is late whenever, if ever, it completes. */
  lemma FailedCheckMeansLate(alg: Alg, ts: seq<Task>, n: nat, i: nat)
    requires TaskSet(ts) && Flagged(alg, At(alg, ts, n).tasks, i)
    ensures !MeetsDeadline(alg, ts, i, At(alg, ts, n).done[i])
  {
    hide At, TaskSet;
    var x := At(alg, ts, n);
    var k := x.done[i];
    forall m: nat | Completes(alg, ts, m, i, k)
      ensures Due(ts[i], k) < At(alg, ts, m + 1).now
    {
      if i == Head(alg, x.tasks) {
        DoomedIsLate(alg, ts, n, i, k, m);
      } else {
        FlaggedIsDoomed(alg, ts, n, i);
        DoomedIsLate(alg, ts, n + 1, i, k, m);
      }
    }
  }

  lemma CheckFlagsNone(alg: Alg, s: seq<Task>)
    ensures Check(alg, s) <==> forall i: nat :: !Flagged(alg, s, i)
  {
    hide Check, Head;
    CheckMeans(alg, s);
    if forall i: nat :: !Flagged(alg, s, i) {
      forall i | 0 <= i < |s| && Ready(s[i])
        ensures if i == Head(alg, s) then s[i].CompletionTime() <= s[i].RemainingTime()
                else s[i].CompletionTime() < s[i].RemainingTime()
      {
        assert !Flagged(alg, s, i);
      }
    }
  }

  /** While checks pass, no job falls behind by its relative deadline, so every job's turn comes. */
  lemma JobsKeepUp(alg: Alg, ts: seq<Task>, n: nat, i: nat)
    requires TaskSet(ts) && i < |ts| && Check(alg, At(alg, ts, n).tasks)
    ensures At(alg, ts, n).now < Due(ts[i], At(alg, ts, n).done[i])
  {
    RunKeepsBooks(alg, ts, n);
    PassedIsLax(alg, ts, At(alg, ts, n));
    TaskKeepsBooks(alg, ts, n, i);
  }

  lemma DueIsMonotone(t: Task, k: nat, l: nat)
    requires t.p > 0 && Due(t, k) < Due(t, l)
    ensures k < l
  {
    assert l <= k ==> l * t.p <= k * t.p;
  }

  lemma MeetsWitness(alg: Alg, ts: seq<Task>, m: nat, i: nat, k: nat)
    requires i < |ts| && OnTime(alg, ts, m, i, k)
    ensures MeetsDeadline(alg, ts, i, k)
  {
  }

  lemma EveryJobCompletes(alg: Alg, ts: seq<Task>, i: nat, k: nat) returns (n: nat)
    requires TaskSet(ts) && PassesForever(alg, ts) && i < |ts|
    ensures k < At(alg, ts, n).done[i]
  {
    assert ts[i].WellFormed();
    hide At, Check, TaskSet, Books;
    n := Due(ts[i], k);
    RunKeepsBooks(alg, ts, n);
    JobsKeepUp(alg, ts, n, i);
    DueIsMonotone(ts[i], k, At(alg, ts, n).done[i]);
  }

  /** The check is exact: a run passes forever if and only if every job of every task is on time. */
  lemma CheckIsExact(alg: Alg, ts: seq<Task>)
    requires TaskSet(ts)
    ensures PassesForever(alg, ts) <==> EveryJobOnTime(alg, ts)
  {
    hide At, Check, TaskSet, MeetsDeadline;
    if PassesForever(alg, ts) {
      forall i: nat, k: nat | i < |ts|
        ensures MeetsDeadline(alg, ts, i, k)
      {
        var n := EveryJobCompletes(alg, ts, i, k);
        var m := CompletedOnTime(alg, ts, n, i, k);
        MeetsWitness(alg, ts, m, i, k);
      }
    }
    if EveryJobOnTime(alg, ts) {
      forall n: nat
        ensures Check(alg, At(alg, ts, n).tasks)
      {
        if !Check(alg, At(alg, ts, n).tasks) {
          CheckFlagsNone(alg, At(alg, ts, n).tasks);
          var i: nat :| Flagged(alg, At(alg, ts, n).tasks, i);
          FailedCheckMeansLate(alg, ts, n, i);
        }
      }
    }
  }
}
