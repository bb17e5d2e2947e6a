/**
 SCT maximises throughput: as long as no job falls a period behind, at every instant it has
 completed at least as many jobs as any schedule that never idles while a task is ready,
 EDF and RMA among them.
 */
module Throughput {
  import opened Sums
  import opened Tasks
  import opened Engine
  import opened Bookkeeping
  import opened Majorization

  /** What is left to run of the task's pending job, if it has one. */
  function Left(t: Task): int {
    if Ready(t) then t.CompletionTime() else 0
  }

  function Lefts(x: Run): (v: seq<int>)
    ensures |v| == |x.tasks|
    ensures forall i :: 0 <= i < |v| ==> v[i] == Left(x.tasks[i])
  {
    seq(|x.tasks|, i requires 0 <= i < |x.tasks| => Left(x.tasks[i]))
  }

  /** No task has a second job released before its current one is complete. */
  ghost predicate OnePending(x: Run) {
    forall i :: 0 <= i < |x.tasks| ==> -x.tasks[i].p < x.tasks[i].r
  }

  /** The work released at an instant: a matter of the clock alone. */
  function Arrivals(ts: seq<Task>, now: int): (a: seq<int>)
    requires forall i :: 0 <= i < |ts| ==> ts[i].p > 0
    ensures |a| == |ts|
    ensures forall i :: 0 <= i < |ts| ==> a[i] == if now % ts[i].p == 0 then ts[i].c else 0
  {
    seq(|ts|, i requires 0 <= i < |ts| => if now % ts[i].p == 0 then ts[i].c else 0)
  }

  lemma PeriodsArePositive(ts: seq<Task>)
    requires TaskSet(ts)
    ensures forall i :: 0 <= i < |ts| ==> ts[i].p > 0 && ts[i].c > 0
  {
    forall i | 0 <= i < |ts|
      ensures ts[i].p > 0 && ts[i].c > 0
    {
      assert ts[i].WellFormed();
    }
  }

  /** Within one pending job, an instant is a release of the task just when r is 0. */
  lemma ReleaseIsZeroR(k: int, p: int, r: int, now: int)
    requires p > 0 && -p < r < p && r + now == k * p
    ensures now % p == 0 <==> r == 0
  {
    var q := now / p;
    assert now == p * q + now % p;
    assert r + now % p == (k - q) * p;
    var m := k - q;
    assert m >= 2 ==> m * p >= 2 * p;
    assert m <= -1 ==> m * p <= -p;
  }

  /** A granted quantum, task by task: h works, and the releases of the next instant arrive at idle tasks. */
  lemma QuantumOfTask(t0: Task, t: Task, k: nat, now: int, run: bool)
    requires t0.WellFormed() && TaskBooks(SCT, t0, t, k, now) && (run ==> Ready(t))
    requires -t.p < t.r
    requires var u := if run then Charged(SCT, t) else Wait(t, 1);
             TaskBooks(SCT, t0, u, if run && Finishes(SCT, t) then k + 1 else k, now + 1) && -u.p < u.r
    ensures var u := if run then Charged(SCT, t) else Wait(t, 1);
            var v := if run then Left(t) - 1 else Left(t);
            var a := if (now + 1) % t0.p == 0 then t0.c else 0;
            0 <= v && 0 <= a && Left(u) == v + a && (v == 0 || a == 0)
  {
    var u := if run then Charged(SCT, t) else Wait(t, 1);
    ReleaseIsZeroR(if run && Finishes(SCT, t) then k + 1 else k, t0.p, u.r, now + 1);
  }

  lemma QuantumArrives(ts: seq<Task>, x: Run, h: nat)
    requires TaskSet(ts) && Books(SCT, ts, x) && OnePending(x)
    requires h < |ts| && Ready(x.tasks[h]) && OnePending(Grant(SCT, x, h))
    ensures forall i :: 0 <= i < |ts| ==> ts[i].p > 0
    ensures Lefts(x)[h] > 0
    ensures Arrives(Lefts(x)[h := Lefts(x)[h] - 1], Arrivals(ts, x.now + 1), Lefts(Grant(SCT, x, h)))
    ensures Books(SCT, ts, Grant(SCT, x, h))
  {
    PeriodsArePositive(ts);
    GrantKeepsBooks(SCT, ts, x, h);
    var y, v, a := Grant(SCT, x, h), Lefts(x)[h := Lefts(x)[h] - 1], Arrivals(ts, x.now + 1);
    assert TaskBooks(SCT, ts[h], x.tasks[h], x.done[h], x.now);
    hide Books, TaskSet, TaskBooks, OnePending, Grant, Left;
    forall i | 0 <= i < |ts|
      ensures 0 <= a[i] && 0 <= v[i] && Lefts(y)[i] == v[i] + a[i] && (v[i] == 0 || a[i] == 0)
    {
      QuantumOfMember(ts, x, h, i);
    }
  }

  lemma QuantumOfMember(ts: seq<Task>, x: Run, h: nat, i: nat)
    requires TaskSet(ts) && Books(SCT, ts, x) && OnePending(x) && h < |ts| && i < |ts|
    requires Ready(x.tasks[h]) && OnePending(Grant(SCT, x, h)) && Books(SCT, ts, Grant(SCT, x, h))
    ensures ts[i].p > 0
    ensures var v := if i == h then Left(x.tasks[i]) - 1 else Left(x.tasks[i]);
            var a := if (x.now + 1) % ts[i].p == 0 then ts[i].c else 0;
            0 <= v && 0 <= a && Left(Grant(SCT, x, h).tasks[i]) == v + a && (v == 0 || a == 0)
  {
    var y := Grant(SCT, x, h);
    assert ts[i].WellFormed() && TaskBooks(SCT, ts[i], x.tasks[i], x.done[i], x.now);
    assert TaskBooks(SCT, ts[i], y.tasks[i], y.done[i], y.now);
    QuantumOfTask(ts[i], x.tasks[i], x.done[i], x.now, i == h);
  }

  // ---------- the simulation ----------

  /** x, run by SCT, and y, run by some other schedule, at the same instant. */
  ghost predicate Dominates(ts: seq<Task>, x: Run, y: Run) {
    && Books(SCT, ts, x) && Books(SCT, ts, y)
    && OnePending(x) && OnePending(y)
    && x.now == y.now
    && Majorizes(Lefts(x), Lefts(y))
  }

  lemma LeftsAreNonNegative(ts: seq<Task>, x: Run)
    requires Books(SCT, ts, x)
    ensures NonNegative(Lefts(x))
    ensures forall i :: 0 <= i < |ts| ==> (Lefts(x)[i] > 0 <==> Ready(x.tasks[i]))
  {
    forall i | 0 <= i < |ts|
      ensures 0 <= Lefts(x)[i] && (Lefts(x)[i] > 0 <==> Ready(x.tasks[i]))
    {
      assert TaskBooks(SCT, ts[i], x.tasks[i], x.done[i], x.now);
    }
  }

  /** SCT's head is a shortest pending job. */
  lemma HeadIsShortest(ts: seq<Task>, x: Run)
    requires Books(SCT, ts, x) && !Idle(x.tasks)
    ensures var h := Head(SCT, x.tasks);
            h < |ts| && forall k :: 0 <= k < |ts| && Lefts(x)[k] > 0 ==> Lefts(x)[h] <= Lefts(x)[k]
  {
    LeftsAreNonNegative(ts, x);
    HeadIsBest(SCT, x.tasks);
  }

  /** h serves a shortest pending job of x, j any of y. */
  ghost predicate BothServe(ts: seq<Task>, x: Run, h: nat, y: Run, j: nat) {
    && TaskSet(ts) && Dominates(ts, x, y)
    && |x.tasks| == |x.done| == |ts| && |y.tasks| == |y.done| == |ts|
    && h < |ts| && Ready(x.tasks[h]) && OnePending(Grant(SCT, x, h))
    && (forall k :: 0 <= k < |ts| && Lefts(x)[k] > 0 ==> Lefts(x)[h] <= Lefts(x)[k])
    && j < |ts| && Ready(y.tasks[j]) && OnePending(Grant(SCT, y, j))
  }

  lemma GrantVectors(ts: seq<Task>, x: Run, h: nat, y: Run, j: nat)
    requires BothServe(ts, x, h, y, j)
    ensures Majorizes(Lefts(Grant(SCT, x, h)), Lefts(Grant(SCT, y, j)))
  {
    hide Books, TaskSet, OnePending, Arrivals, Arrives, Majorizes, Grant, Ready, Lefts;
    QuantumArrives(ts, x, h);
    QuantumArrives(ts, y, j);
    QuantumMajorizes(Lefts(x), Lefts(y), h, j, Arrivals(ts, x.now + 1), Lefts(Grant(SCT, x, h)), Lefts(Grant(SCT, y, j)));
  }

  lemma GrantMajorizes(ts: seq<Task>, x: Run, h: nat, y: Run, j: nat)
    requires BothServe(ts, x, h, y, j)
    ensures Dominates(ts, Grant(SCT, x, h), Grant(SCT, y, j))
  {
    GrantKeepsBooks(SCT, ts, x, h);
    GrantKeepsBooks(SCT, ts, y, j);
    GrantTakesQuantum(x, h);
    GrantTakesQuantum(y, j);
    hide Books, TaskSet, OnePending, Grant, Lefts, Majorizes;
    GrantVectors(ts, x, h, y, j);
  }

  lemma GrantTakesQuantum(x: Run, h: nat)
    requires h < |x.tasks| == |x.done|
    ensures Grant(SCT, x, h).now == x.now + 1
  {
  }

  lemma BusyQuantum(ts: seq<Task>, x: Run, y: Run, j: nat)
    requires TaskSet(ts) && Dominates(ts, x, y) && !Idle(x.tasks)
    requires j < |ts| && Ready(y.tasks[j])
    requires OnePending(Advance(SCT, x)) && OnePending(Grant(SCT, y, j))
    ensures Dominates(ts, Advance(SCT, x), Grant(SCT, y, j))
  {
    HeadIsShortest(ts, x);
    hide Lefts, Books, TaskSet;
    GrantMajorizes(ts, x, Head(SCT, x.tasks), y, j);
  }

  lemma IdleMeansNothingLeft(ts: seq<Task>, x: Run)
    requires Books(SCT, ts, x)
    ensures Idle(x.tasks) <==> Excess(Lefts(x), 0) == 0
  {
    LeftsAreNonNegative(ts, x);
    var o := Over(Lefts(x), 0);
    if Idle(x.tasks) {
      SumZero(o);
    } else {
      SumAtLeast(o);
      var i :| 0 <= i < |x.tasks| && Ready(x.tasks[i]);
      assert o[i] > 0;
    }
  }

  /** Both schedules are idle together. */
  lemma IdleTogether(ts: seq<Task>, x: Run, y: Run)
    requires Dominates(ts, x, y)
    ensures Idle(x.tasks) <==> Idle(y.tasks)
  {
    IdleMeansNothingLeft(ts, x);
    IdleMeansNothingLeft(ts, y);
  }

  /** Two multiples of p in the same interval of length p are the same. */
  lemma SameMultiple(p: int, k: int, l: int, low: int)
    requires p > 0
    requires low < k * p <= low + p && low < l * p <= low + p
    ensures k == l
  {
    assert (k - l) * p == k * p - l * p;
    var m := k - l;
    assert m >= 1 ==> m * p >= p;
    assert m <= -1 ==> m * p <= -p;
  }

  /** Jobs released so far: the completed ones and the pending one. */
  function Released(x: Run, i: nat): nat
    requires i < |x.tasks| == |x.done|
  {
    x.done[i] + (if Ready(x.tasks[i]) then 1 else 0)
  }

  lemma ReleasedWindow(ts: seq<Task>, x: Run, i: nat)
    requires TaskSet(ts) && Books(SCT, ts, x) && OnePending(x) && i < |ts|
    ensures ts[i].p > 0 && x.now < Released(x, i) * ts[i].p <= x.now + ts[i].p
  {
    assert ts[i].WellFormed() && TaskBooks(SCT, ts[i], x.tasks[i], x.done[i], x.now);
    assert (x.done[i] + 1) * ts[i].p == x.done[i] * ts[i].p + ts[i].p;
  }

  lemma SameReleased(ts: seq<Task>, x: Run, y: Run, i: nat)
    requires TaskSet(ts) && Books(SCT, ts, x) && Books(SCT, ts, y) && i < |ts|
    requires OnePending(x) && OnePending(y) && x.now == y.now
    ensures Released(x, i) == Released(y, i)
  {
    var m, n := Released(x, i), Released(y, i);
    hide *;
    ReleasedWindow(ts, x, i);
    ReleasedWindow(ts, y, i);
    SameMultiple(ts[i].p, m, n, x.now);
  }

  lemma IdleQuantum(ts: seq<Task>, x: Run, y: Run)
    requires TaskSet(ts) && Dominates(ts, x, y) && Idle(x.tasks)
    ensures Idle(y.tasks)
    ensures Dominates(ts, Rest(x), Rest(y))
  {
    IdleTogether(ts, x, y);
    forall i | 0 <= i < |ts|
      ensures x.tasks[i] == y.tasks[i]
    {
      SameReleased(ts, x, y, i);
      assert !Ready(x.tasks[i]) && !Ready(y.tasks[i]);
      assert TaskBooks(SCT, ts[i], x.tasks[i], x.done[i], x.now);
      assert TaskBooks(SCT, ts[i], y.tasks[i], y.done[i], y.now);
    }
    assert x.tasks == y.tasks;
    RestKeepsBooks(SCT, ts, x);
    RestKeepsBooks(SCT, ts, y);
    LeftsAreNonNegative(ts, Rest(x));
    RestIsOnePending(ts, x);
  }

  lemma RestIsOnePending(ts: seq<Task>, x: Run)
    requires TaskSet(ts) && Books(SCT, ts, x) && Idle(x.tasks)
    ensures OnePending(Rest(x))
  {
    forall i | 0 <= i < |ts|
      ensures -x.tasks[i].p < Rest(x).tasks[i].r
    {
      assert ts[i].WellFormed() && TaskBooks(SCT, ts[i], x.tasks[i], x.done[i], x.now);
    }
  }

  lemma StartDominates(ts: seq<Task>)
    requires TaskSet(ts)
    ensures Dominates(ts, Start(ts), Start(ts))
  {
    StartBooks(SCT, ts);
    LeftsAreNonNegative(ts, Start(ts));
    PeriodsArePositive(ts);
  }

  /** What the simulation is for: the dominating run has completed at least as many jobs. */
  lemma DominanceCounts(ts: seq<Task>, x: Run, y: Run)
    requires TaskSet(ts) && Dominates(ts, x, y)
    ensures Sum(y.done) <= Sum(x.done)
  {
    LeftsAreNonNegative(ts, x);
    LeftsAreNonNegative(ts, y);
    FewerEntries(Lefts(x), Lefts(y));
    var all := seq(|ts|, i requires 0 <= i < |ts| => Released(x, i));
    SumPlus(x.done, Above(Lefts(x), 0), all);
    forall i | 0 <= i < |ts|
      ensures all[i] == y.done[i] + Above(Lefts(y), 0)[i]
    {
      SameReleased(ts, x, y, i);
    }
    SumPlus(y.done, Above(Lefts(y), 0), all);
  }
}
