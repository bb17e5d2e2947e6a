/**
 What every run keeps, whether or not its checks pass: exact accounts of released jobs,
 executed quanta and idle time, and the progress of virtual time.
 */
module Bookkeeping {
  import opened Sums
  import opened Tasks
  import opened Engine

  /** Quanta executed so far, task by task. */
  function Work(x: Run): (w: seq<int>)
    requires |x.tasks| == |x.done|
    ensures |w| == |x.tasks|
    ensures forall i :: 0 <= i < |w| ==> w[i] == x.done[i] * x.tasks[i].c + x.tasks[i].a
  {
    seq(|x.tasks|, i requires 0 <= i < |x.tasks| => x.done[i] * x.tasks[i].c + x.tasks[i].a)
  }

  /** The current job of a task, its number k, and the clock agree. */
  predicate TaskBooks(alg: Alg, t0: Task, t: Task, k: nat, now: int) {
    && t.SameParameters(t0)
    && 0 <= t.a < t.c
    && (alg == RMA ==> t.a == 0)
    && (t.a > 0 ==> t.r < 0)
    && t.r < t.p
    && t.r + now == k * t.p
  }

  ghost predicate Books(alg: Alg, ts: seq<Task>, x: Run) {
    && |x.tasks| == |x.done| == |ts|
    && (forall i :: 0 <= i < |ts| ==> TaskBooks(alg, ts[i], x.tasks[i], x.done[i], x.now))
    && 0 <= x.idle <= x.now
    && x.now == Sum(Work(x)) + x.idle
  }

  lemma StartBooks(alg: Alg, ts: seq<Task>)
    requires TaskSet(ts)
    ensures Books(alg, ts, Start(ts))
  {
    SumZero(Work(Start(ts)));
  }

  lemma ChargedBooks(alg: Alg, t0: Task, t: Task, k: nat, now: int)
    requires t0.WellFormed() && TaskBooks(alg, t0, t, k, now) && Ready(t)
    ensures TaskBooks(alg, t0, Charged(alg, t), if Finishes(alg, t) then k + 1 else k, now + Delta(alg, t))
    ensures 0 < Delta(alg, t)
    ensures (if Finishes(alg, t) then k + 1 else k) * t.c + Charged(alg, t).a == k * t.c + t.a + Delta(alg, t)
  {
    assert (k + 1) * t.p == k * t.p + t.p && (k + 1) * t.c == k * t.c + t.c;
  }

  lemma WaitingBooks(alg: Alg, t0: Task, t: Task, k: nat, now: int, delta: int)
    requires TaskBooks(alg, t0, t, k, now) && delta > 0
    ensures TaskBooks(alg, t0, Wait(t, delta), k, now + delta)
  {
  }

  lemma GrantedTask(alg: Alg, ts: seq<Task>, x: Run, h: nat, i: nat)
    requires TaskSet(ts) && Books(alg, ts, x) && h < |ts| && i < |ts| && Ready(x.tasks[h])
    ensures var y := Grant(alg, x, h); TaskBooks(alg, ts[i], y.tasks[i], y.done[i], y.now)
  {
    ChargedBooks(alg, ts[h], x.tasks[h], x.done[h], x.now);
    WaitingBooks(alg, ts[i], x.tasks[i], x.done[i], x.now, Delta(alg, x.tasks[h]));
  }

  lemma GrantedSum(alg: Alg, ts: seq<Task>, x: Run, h: nat)
    requires TaskSet(ts) && Books(alg, ts, x) && h < |ts| && Ready(x.tasks[h])
    ensures var y := Grant(alg, x, h);
            && |y.tasks| == |y.done| == |ts| && y.idle == x.idle && y.now == x.now + Delta(alg, x.tasks[h]) > x.now
            && Sum(Work(y)) == Sum(Work(x)) + Delta(alg, x.tasks[h])
  {
    ChargedBooks(alg, ts[h], x.tasks[h], x.done[h], x.now);
    hide TaskSet, TaskBooks, Delta, Finishes, Charged, Ready;
    var w, v := Work(x), Work(x)[h] + Delta(alg, x.tasks[h]);
    assert Work(Grant(alg, x, h)) == w[h := v];
    SumUpdate(w, h, v);
  }

  lemma GrantKeepsBooks(alg: Alg, ts: seq<Task>, x: Run, h: nat)
    requires TaskSet(ts) && Books(alg, ts, x)
    requires h < |ts| && Ready(x.tasks[h])
    ensures Books(alg, ts, Grant(alg, x, h))
    ensures Grant(alg, x, h).now > x.now
  {
    hide TaskSet, TaskBooks, Delta, Ready, Work, Sum, Grant;
    var y := Grant(alg, x, h);
    GrantedSum(alg, ts, x, h);
    forall i | 0 <= i < |ts|
      ensures TaskBooks(alg, ts[i], y.tasks[i], y.done[i], y.now)
    {
      GrantedTask(alg, ts, x, h, i);
    }
  }

  /** With nothing ready, the least r is a positive distance to a real release. */
  lemma MinRIsRelease(alg: Alg, ts: seq<Task>, x: Run)
    requires TaskSet(ts) && Books(alg, ts, x) && Idle(x.tasks)
    ensures 0 < MinR(x.tasks)
    ensures exists i :: 0 <= i < |ts| && x.tasks[i].r == MinR(x.tasks)
  {
    assert TaskBooks(alg, ts[0], x.tasks[0], x.done[0], x.now) && ts[0].WellFormed();
    assert !Ready(x.tasks[0]);
    assert MinR(x.tasks) <= x.tasks[0].r < INT_MAX;
  }

  lemma RestedTask(alg: Alg, ts: seq<Task>, x: Run, i: nat)
    requires TaskSet(ts) && Books(alg, ts, x) && Idle(x.tasks) && i < |ts|
    ensures var y := Rest(x); y.now > x.now && TaskBooks(alg, ts[i], y.tasks[i], y.done[i], y.now)
  {
    MinRIsRelease(alg, ts, x);
    WaitingBooks(alg, ts[i], x.tasks[i], x.done[i], x.now, MinR(x.tasks));
  }

  lemma RestKeepsBooks(alg: Alg, ts: seq<Task>, x: Run)
    requires TaskSet(ts) && Books(alg, ts, x) && Idle(x.tasks)
    ensures Books(alg, ts, Rest(x))
    ensures Rest(x).now > x.now
  {
    var y := Rest(x);
    assert Work(y) == Work(x);
    RestedTask(alg, ts, x, 0);
    hide TaskSet, MinR, TaskBooks, Idle, Wait, Work;
    forall i | 0 <= i < |ts|
      ensures TaskBooks(alg, ts[i], y.tasks[i], y.done[i], y.now)
    {
      RestedTask(alg, ts, x, i);
    }
  }

  lemma AdvanceKeepsBooks(alg: Alg, ts: seq<Task>, x: Run)
    requires TaskSet(ts) && Books(alg, ts, x)
    ensures Books(alg, ts, Advance(alg, x))
    ensures Advance(alg, x).now > x.now
  {
    if Idle(x.tasks) {
      RestKeepsBooks(alg, ts, x);
    } else {
      GrantKeepsBooks(alg, ts, x, Head(alg, x.tasks));
    }
  }

  /** The accounts balance at every step of every run, and n steps take at least n quanta. */
  lemma {:induction false} RunKeepsBooks(alg: Alg, ts: seq<Task>, n: nat)
    requires TaskSet(ts)
    ensures Books(alg, ts, At(alg, ts, n))
    ensures At(alg, ts, n).now >= n
  {
    hide Books, TaskSet, At, Advance;
    if n == 0 {
      StartsAtZero(alg, ts);
      StartBooks(alg, ts);
    } else {
      RunKeepsBooks(alg, ts, n - 1);
      NextState(alg, ts, n - 1);
      AdvanceKeepsBooks(alg, ts, At(alg, ts, n - 1));
    }
  }

  lemma TaskKeepsBooks(alg: Alg, ts: seq<Task>, n: nat, i: nat)
    requires TaskSet(ts) && i < |ts|
    ensures ts[i].WellFormed()
    ensures TaskBooks(alg, ts[i], At(alg, ts, n).tasks[i], At(alg, ts, n).done[i], At(alg, ts, n).now)
  {
    RunKeepsBooks(alg, ts, n);
  }

  lemma StepTakesTime(alg: Alg, ts: seq<Task>, n: nat)
    requires TaskSet(ts)
    ensures At(alg, ts, n).now < At(alg, ts, n + 1).now
  {
    RunKeepsBooks(alg, ts, n);
    AdvanceKeepsBooks(alg, ts, At(alg, ts, n));
  }

  lemma {:induction false} TimeIsMonotone(alg: Alg, ts: seq<Task>, m: nat, n: nat)
    requires TaskSet(ts) && m < n
    ensures At(alg, ts, m).now < At(alg, ts, n).now
  {
    hide *;
    StepTakesTime(alg, ts, n - 1);
    if m < n - 1 {
      TimeIsMonotone(alg, ts, m, n - 1);
    }
  }

  lemma StartsAtZero(alg: Alg, ts: seq<Task>)
    ensures At(alg, ts, 0) == Start(ts) && At(alg, ts, 0).now == 0
  {
  }

  lemma NextState(alg: Alg, ts: seq<Task>, n: nat)
    ensures At(alg, ts, n + 1) == Advance(alg, At(alg, ts, n))
  {
  }

  /** Time is unbounded along a run: any instant lies within exactly one step. */
  lemma {:induction false} StepAround(alg: Alg, ts: seq<Task>, l: nat, bound: nat) returns (n: nat)
    requires TaskSet(ts)
    requires At(alg, ts, bound).now > l
    ensures n < bound && At(alg, ts, n).now <= l < At(alg, ts, n + 1).now
  {
    hide *;
    StartsAtZero(alg, ts);
    if At(alg, ts, bound - 1).now <= l {
      n := bound - 1;
    } else {
      n := StepAround(alg, ts, l, bound - 1);
    }
  }

  lemma StepAt(alg: Alg, ts: seq<Task>, l: nat) returns (n: nat)
    requires TaskSet(ts)
    ensures n <= l && At(alg, ts, n).now <= l < At(alg, ts, n + 1).now
  {
    hide *;
    RunKeepsBooks(alg, ts, l + 1);
    n := StepAround(alg, ts, l, l + 1);
  }

  /** A passed check leaves every task, ready or not, enough time for its current job. */
  predicate Lax(s: seq<Task>) {
    forall i :: 0 <= i < |s| ==> s[i].CompletionTime() <= s[i].RemainingTime()
  }

  lemma PassedIsLax(alg: Alg, ts: seq<Task>, x: Run)
    requires TaskSet(ts) && Books(alg, ts, x)
    requires Check(alg, x.tasks)
    ensures Lax(x.tasks)
  {
    CheckMeans(alg, x.tasks);
    forall i | 0 <= i < |x.tasks|
      ensures x.tasks[i].CompletionTime() <= x.tasks[i].RemainingTime()
    {
      assert TaskBooks(alg, ts[i], x.tasks[i], x.done[i], x.now) && ts[i].WellFormed();
    }
  }

  /**
   Under the preemptive algorithms the one-quantum look-ahead is enough: after a passed check
   every task still has the time it needs, so at most its current job is outstanding.
   */
  lemma PassedKeepsLax(alg: Alg, ts: seq<Task>, x: Run)
    requires TaskSet(ts) && Books(alg, ts, x)
    requires alg != RMA && Check(alg, x.tasks)
    ensures Lax(Advance(alg, x).tasks)
  {
    CheckMeans(alg, x.tasks);
    if Idle(x.tasks) {
      MinRIsRelease(alg, ts, x);
    }
    var y := Advance(alg, x);
    forall i | 0 <= i < |y.tasks|
      ensures y.tasks[i].CompletionTime() <= y.tasks[i].RemainingTime()
    {
      assert TaskBooks(alg, ts[i], x.tasks[i], x.done[i], x.now) && ts[i].WellFormed();
    }
  }

  lemma StartIsLax(ts: seq<Task>)
    requires TaskSet(ts)
    ensures Lax(Start(ts).tasks)
  {
    forall i | 0 <= i < |ts|
      ensures Restart(ts)[i].CompletionTime() <= Restart(ts)[i].RemainingTime()
    {
      assert ts[i].WellFormed();
    }
  }

  lemma StaysLax(alg: Alg, ts: seq<Task>, n: nat)
    requires TaskSet(ts) && alg != RMA && Passes(alg, ts, n)
    ensures Lax(At(alg, ts, n).tasks)
  {
    hide At, Lax, Books, TaskSet, Check, Advance;
    if n == 0 {
      StartsAtZero(alg, ts);
      StartIsLax(ts);
    } else {
      RunKeepsBooks(alg, ts, n - 1);
      NextState(alg, ts, n - 1);
      PassedKeepsLax(alg, ts, At(alg, ts, n - 1));
    }
  }

  /** EDF and SCT: after any number of passed checks, before the next one is made. */
  lemma LaxityInvariant(alg: Alg, ts: seq<Task>, n: nat, i: nat)
    requires TaskSet(ts) && alg != RMA && Passes(alg, ts, n) && i < |ts|
    ensures var t := At(alg, ts, n).tasks[i];
            && 0 <= t.a < t.c && (t.a > 0 ==> t.r < 0)
            && t.CompletionTime() <= t.RemainingTime() && -t.d < t.r < t.p
  {
    StaysLax(alg, ts, n);
    TaskKeepsBooks(alg, ts, n, i);
  }

  /** Hence the comparators' subtractions cannot wrap: between queued tasks they stay within INT_MAX. */
  lemma ComparatorsStayInRange(alg: Alg, ts: seq<Task>, n: nat, i: nat, j: nat)
    requires TaskSet(ts) && alg != RMA && Passes(alg, ts, n)
    requires i < |ts| && j < |ts|
    requires Ready(At(alg, ts, n).tasks[i]) && Ready(At(alg, ts, n).tasks[j])
    ensures 1 <= Key(alg, At(alg, ts, n).tasks[i]) <= ts[i].d
    ensures -ts[j].d < Compare(alg, At(alg, ts, n).tasks[i], At(alg, ts, n).tasks[j]) < ts[i].d <= INT_MAX
  {
    LaxityInvariant(alg, ts, n, i);
    LaxityInvariant(alg, ts, n, j);
    TaskKeepsBooks(alg, ts, n, i);
    TaskKeepsBooks(alg, ts, n, j);
  }
}
