/**
 Which task sets pass: demand bounds what any algorithm passes, and is the exact condition for EDF,
 which is therefore optimal among the three.
 */
module Feasibility {
  import opened Sums
  import opened Tasks
  import opened Engine
  import opened Bookkeeping
  import opened Deadlines

  // ---------- demand ----------

  /** Jobs of a task released at or after 0 and due by L, when the first is released at 0. */
  function JobsDue(t: Task, l: int): int
    requires t.p > 0
  {
    if l < t.d then 0 else (l - t.d) / t.p + 1
  }

  function Demands(ts: seq<Task>, l: int): (w: seq<int>)
    requires forall i :: 0 <= i < |ts| ==> ts[i].p > 0
    ensures |w| == |ts|
    ensures forall i :: 0 <= i < |ts| ==> w[i] == JobsDue(ts[i], l) * ts[i].c
  {
    seq(|ts|, i requires 0 <= i < |ts| => JobsDue(ts[i], l) * ts[i].c)
  }

  /** The work that must be executed within any interval of length l that starts with all releases. */
  function Demand(ts: seq<Task>, l: int): int
    requires forall i :: 0 <= i < |ts| ==> ts[i].p > 0
  {
    Sum(Demands(ts, l))
  }

  ghost predicate DemandFits(ts: seq<Task>)
    requires forall i :: 0 <= i < |ts| ==> ts[i].p > 0
  {
    forall l: nat :: Demand(ts, l) <= l
  }

  lemma JobsDueMeans(t: Task, l: int, k: nat)
    requires t.p > 0
    ensures k < JobsDue(t, l) <==> k * t.p + t.d <= l
  {
    if t.d <= l {
      var q, p := (l - t.d) / t.p, t.p;
      assert q * p <= l - t.d < q * p + p;
      assert (q + 1) * p == q * p + p;
      if k <= q {
        Scaled(k, q, p);
      } else {
        Scaled(q + 1, k, p);
      }
    } else {
      Scaled(0, k, t.p);
    }
  }

  /** Jobs from number k on, all released at or after time s, are no more than a fresh start at s would see. */
  lemma JobsFromLater(t: Task, k: nat, s: int, l: int)
    requires t.p > 0 && s <= k * t.p
    ensures JobsDue(t, l) - k <= JobsDue(t, l - s)
    ensures 0 <= JobsDue(t, l - s)
  {
    if t.d <= l - s {
      assert 0 <= (l - s - t.d) / t.p;
    }
    var n := JobsDue(t, l) - k;
    if n > 0 {
      JobsDueMeans(t, l, k + n - 1);
      assert (k + n - 1) * t.p == k * t.p + (n - 1) * t.p;
      JobsDueMeans(t, l - s, n - 1);
    }
  }

  // ---------- necessity, for every algorithm ----------

  /** Between two passed checks no outstanding job is due before the second. */
  lemma OutstandingIsDueLater(alg: Alg, ts: seq<Task>, n: nat, i: nat)
    requires TaskSet(ts) && i < |ts| && Passes(alg, ts, n + 2)
    ensures At(alg, ts, n + 1).now <= Due(ts[i], At(alg, ts, n).done[i])
  {
    hide At, Check, TaskSet;
    StepOfJob(alg, ts, n, i);
    if At(alg, ts, n + 1).done[i] == At(alg, ts, n).done[i] {
      JobsKeepUp(alg, ts, n + 1, i);
    } else {
      PassedCompletionIsOnTime(alg, ts, n, i, At(alg, ts, n).done[i]);
    }
  }

  lemma WorkWithinTime(alg: Alg, ts: seq<Task>, n: nat, w: seq<int>)
    requires TaskSet(ts) && |w| == |ts|
    requires forall i :: 0 <= i < |ts| ==> w[i] <= At(alg, ts, n).done[i] * ts[i].c
    ensures Sum(w) <= At(alg, ts, n).now
  {
    var x := At(alg, ts, n);
    RunKeepsBooks(alg, ts, n);
    forall i | 0 <= i < |ts|
      ensures w[i] <= Work(x)[i]
    {
      assert TaskBooks(alg, ts[i], x.tasks[i], x.done[i], x.now);
    }
    SumLe(w, Work(x));
  }

  lemma PassingFitsDemand(alg: Alg, ts: seq<Task>, l: nat)
    requires TaskSet(ts) && PassesForever(alg, ts)
    ensures Demand(ts, l) <= l
  {
    hide At, Check, PassesForever;
    var n := StepAt(alg, ts, l);
    forall i | 0 <= i < |ts|
      ensures Demands(ts, l)[i] <= At(alg, ts, n).done[i] * ts[i].c
    {
      assert Passes(alg, ts, n + 2) by { ForeverPasses(alg, ts, n + 2); }
      OutstandingIsDueLater(alg, ts, n, i);
      JobsDueMeans(ts[i], l, At(alg, ts, n).done[i]);
      Scaled(JobsDue(ts[i], l), At(alg, ts, n).done[i], ts[i].c);
    }
    WorkWithinTime(alg, ts, n, Demands(ts, l));
  }

  lemma ForeverPasses(alg: Alg, ts: seq<Task>, n: nat)
    ensures PassesForever(alg, ts) ==> Passes(alg, ts, n)
  {
  }

  // ---------- sufficiency, for EDF ----------

  function Positive(x: int): int {
    if x < 0 then 0 else x
  }

  /** What is left, at x, of the work of all jobs due by time l, released or not. */
  function Backlogs(x: Run, l: int): (w: seq<int>)
    requires |x.tasks| == |x.done|
    requires forall i :: 0 <= i < |x.tasks| ==> x.tasks[i].p > 0
    ensures |w| == |x.tasks|
    ensures forall i :: 0 <= i < |w| ==> w[i] == BacklogOf(x.tasks[i], x.done[i], l)
  {
    seq(|x.tasks|, i requires 0 <= i < |x.tasks| => BacklogOf(x.tasks[i], x.done[i], l))
  }

  function BacklogOf(t: Task, k: nat, l: int): int
    requires t.p > 0
  {
    Positive(JobsDue(t, l) * t.c - k * t.c - t.a)
  }

  /** A job due later than l contributes nothing to the backlog at l. */
  lemma NoBacklogAfterDue(t: Task, k: nat, l: int)
    requires t.p > 0 && 0 <= t.a < t.c
    requires l < Due(t, k)
    ensures BacklogOf(t, k, l) == 0
  {
    JobsDueMeans(t, l, k);
    Scaled(JobsDue(t, l), k, t.c);
  }

  /** The remainder of a job due by l is part of the backlog at l. */
  lemma BacklogHoldsJob(t: Task, k: nat, l: int)
    requires t.p > 0 && 0 <= t.a < t.c
    requires Due(t, k) <= l
    ensures BacklogOf(t, k, l) == JobsDue(t, l) * t.c - k * t.c - t.a
    ensures BacklogOf(t, k, l) >= t.CompletionTime()
  {
    JobsDueMeans(t, l, k);
    Scaled(k + 1, JobsDue(t, l), t.c);
    assert (k + 1) * t.c == k * t.c + t.c;
  }

  /** Running a job due by l takes one quantum off the backlog at l. */
  lemma ChargedBacklog(t: Task, k: nat, l: int)
    requires t.p > 0 && 0 <= t.a < t.c
    requires Due(t, k) <= l
    ensures BacklogOf(Charged(EDF, t), if Finishes(EDF, t) then k + 1 else k, l) == BacklogOf(t, k, l) - 1
  {
    BacklogHoldsJob(t, k, l);
    assert (k + 1) * t.c == k * t.c + t.c;
  }

  /** A task whose next release is at or after s has no more backlog than the demand of the time left. */
  lemma UnreleasedBacklog(t: Task, k: nat, s: int, l: int)
    requires t.p > 0 && t.c > 0 && t.a == 0 && s <= k * t.p
    ensures BacklogOf(t, k, l) <= JobsDue(t, l - s) * t.c
  {
    JobsFromLater(t, k, s, l);
    Scaled(JobsDue(t, l) - k, JobsDue(t, l - s), t.c);
    assert (JobsDue(t, l) - k) * t.c == JobsDue(t, l) * t.c - k * t.c;
    Scaled(0, JobsDue(t, l - s), t.c);
  }

  /** At x, for every horizon l, the work due by l fits into the time until l. */
  ghost predicate Slack(x: Run) {
    && |x.tasks| == |x.done|
    && (forall i :: 0 <= i < |x.tasks| ==> x.tasks[i].p > 0)
    && forall l: int :: x.now <= l ==> Sum(Backlogs(x, l)) <= l - x.now
  }

  lemma PositivePeriods(alg: Alg, ts: seq<Task>, x: Run)
    requires TaskSet(ts) && Books(alg, ts, x)
    ensures forall i :: 0 <= i < |ts| ==> x.tasks[i].p > 0 && x.tasks[i].c > 0
  {
    forall i | 0 <= i < |ts|
      ensures x.tasks[i].p > 0 && x.tasks[i].c > 0
    {
      assert ts[i].WellFormed() && TaskBooks(alg, ts[i], x.tasks[i], x.done[i], x.now);
    }
  }

  lemma StartHasSlack(ts: seq<Task>)
    requires TaskSet(ts) && DemandFits(ts)
    ensures Slack(Start(ts))
  {
    StartBooks(EDF, ts);
    PositivePeriods(EDF, ts, Start(ts));
    forall l: int | 0 <= l
      ensures Sum(Backlogs(Start(ts), l)) <= l
    {
      forall i | 0 <= i < |ts|
        ensures Backlogs(Start(ts), l)[i] <= Demands(ts, l)[i]
      {
        UnreleasedBacklog(Start(ts).tasks[i], 0, 0, l);
      }
      SumLe(Backlogs(Start(ts), l), Demands(ts, l));
      assert Demand(ts, l) <= l;
    }
  }

  lemma DueIsKey(ts: seq<Task>, x: Run, i: nat)
    requires Books(EDF, ts, x) && i < |ts|
    ensures Due(x.tasks[i], x.done[i]) == x.now + Key(EDF, x.tasks[i])
  {
    assert TaskBooks(EDF, ts[i], x.tasks[i], x.done[i], x.now);
  }

  lemma GrantedBacklogs(x: Run, h: nat, l: int)
    requires h < |x.tasks| == |x.done|
    requires forall i :: 0 <= i < |x.tasks| ==> x.tasks[i].p > 0
    requires 0 <= x.tasks[h].a < x.tasks[h].c && Due(x.tasks[h], x.done[h]) <= l
    ensures forall i :: 0 <= i < |x.tasks| ==> Grant(EDF, x, h).tasks[i].p > 0
    ensures Backlogs(Grant(EDF, x, h), l) == Backlogs(x, l)[h := Backlogs(x, l)[h] - 1]
    ensures Grant(EDF, x, h).now == x.now + 1
  {
    ChargedBacklog(x.tasks[h], x.done[h], l);
  }

  /** The quantum goes to a job due by l: backlog and remaining time both lose one. */
  lemma UsefulQuantum(ts: seq<Task>, x: Run, h: nat, l: int)
    requires TaskSet(ts) && Books(EDF, ts, x) && Slack(x)
    requires h < |ts| && x.now < l && Due(x.tasks[h], x.done[h]) <= l
    ensures forall i :: 0 <= i < |ts| ==> x.tasks[i].p > 0 && Grant(EDF, x, h).tasks[i].p > 0
    ensures Sum(Backlogs(Grant(EDF, x, h), l)) <= l - Grant(EDF, x, h).now
  {
    PositivePeriods(EDF, ts, x);
    var y, w := Grant(EDF, x, h), Backlogs(x, l);
    assert TaskBooks(EDF, ts[h], x.tasks[h], x.done[h], x.now);
    assert Sum(w) <= l - x.now;
    GrantedBacklogs(x, h, l);
    hide *;
    SumUpdate(w, h, w[h] - 1);
  }

  /** A pending job due after l stays out of the backlog at l, run or not. */
  lemma LaterJobStays(t: Task, k: nat, l: int, run: bool)
    requires t.p > 0 && 0 <= t.a < t.c && l < Due(t, k)
    ensures BacklogOf(if run then Charged(EDF, t) else Wait(t, 1), if run && Finishes(EDF, t) then k + 1 else k, l) == 0
  {
    assert (k + 1) * t.p == k * t.p + t.p;
    NoBacklogAfterDue(if run then Charged(EDF, t) else Wait(t, 1), if run && Finishes(EDF, t) then k + 1 else k, l);
  }

  lemma SameDemand(t: Task, u: Task, l: int)
    requires t.p > 0 && t.SameParameters(u)
    ensures JobsDue(t, l) == JobsDue(u, l)
  {
  }

  /** The head is due after l, and so is every pending job: what is left by l is all released later. */
  lemma UnneededGrant(ts: seq<Task>, x: Run, h: nat, l: int, i: nat)
    requires TaskSet(ts) && Books(EDF, ts, x) && i < |ts|
    requires !Idle(x.tasks) && h == Head(EDF, x.tasks) && l < Due(x.tasks[h], x.done[h])
    ensures var y := Grant(EDF, x, h);
            && ts[i].p > 0 && y.tasks[i].p > 0
            && BacklogOf(y.tasks[i], y.done[i], l) <= JobsDue(ts[i], l - y.now) * ts[i].c
  {
    var y, t := Grant(EDF, x, h), x.tasks[i];
    assert ts[i].WellFormed() && TaskBooks(EDF, ts[i], t, x.done[i], x.now);
    HeadIsBest(EDF, x.tasks);
    DueIsKey(ts, x, i);
    DueIsKey(ts, x, h);
    hide Idle, Head, Books, TaskSet;
    if Ready(t) {
      LaterJobStays(t, x.done[i], l, i == h);
      Scaled(0, JobsDue(ts[i], l - y.now), ts[i].c);
    } else {
      UnreleasedBacklog(y.tasks[i], y.done[i], y.now, l);
      SameDemand(ts[i], t, l - y.now);
    }
  }

  lemma UnneededRest(ts: seq<Task>, x: Run, l: int, i: nat)
    requires TaskSet(ts) && Books(EDF, ts, x) && i < |ts| && Idle(x.tasks)
    ensures var y := Rest(x);
            && ts[i].p > 0 && y.tasks[i].p > 0
            && BacklogOf(y.tasks[i], y.done[i], l) <= JobsDue(ts[i], l - y.now) * ts[i].c
  {
    var y, t := Rest(x), x.tasks[i];
    assert ts[i].WellFormed() && TaskBooks(EDF, ts[i], t, x.done[i], x.now);
    UnreleasedBacklog(y.tasks[i], y.done[i], y.now, l);
    SameDemand(ts[i], t, l - y.now);
  }

  lemma LaterReleasesFit(ts: seq<Task>, y: Run, l: int)
    requires TaskSet(ts) && DemandFits(ts) && y.now <= l
    requires |y.tasks| == |y.done| == |ts|
    requires forall i :: 0 <= i < |ts| ==> y.tasks[i].p > 0
    requires forall i :: 0 <= i < |ts| ==>
               BacklogOf(y.tasks[i], y.done[i], l) <= JobsDue(ts[i], l - y.now) * ts[i].c
    ensures Sum(Backlogs(y, l)) <= l - y.now
  {
    SumLe(Backlogs(y, l), Demands(ts, l - y.now));
    assert Demand(ts, l - y.now) <= l - y.now;
  }

  /** With the head due after l, or nobody ready, what is left by l is all released later. */
  lemma UnneededStep(ts: seq<Task>, x: Run, l: int)
    requires TaskSet(ts) && DemandFits(ts) && Books(EDF, ts, x) && Books(EDF, ts, Advance(EDF, x))
    requires Advance(EDF, x).now <= l
    requires Idle(x.tasks) || l < Due(x.tasks[Head(EDF, x.tasks)], x.done[Head(EDF, x.tasks)])
    ensures forall i :: 0 <= i < |ts| ==> Advance(EDF, x).tasks[i].p > 0
    ensures Sum(Backlogs(Advance(EDF, x), l)) <= l - Advance(EDF, x).now
  {
    var y := Advance(EDF, x);
    PositivePeriods(EDF, ts, y);
    forall i | 0 <= i < |ts|
      ensures BacklogOf(y.tasks[i], y.done[i], l) <= JobsDue(ts[i], l - y.now) * ts[i].c
    {
      if Idle(x.tasks) {
        UnneededRest(ts, x, l, i);
      } else {
        UnneededGrant(ts, x, Head(EDF, x.tasks), l, i);
      }
    }
    hide Head, Idle, Books, Advance;
    LaterReleasesFit(ts, y, l);
  }

  lemma EdfKeepsSlack(ts: seq<Task>, x: Run)
    requires TaskSet(ts) && DemandFits(ts) && Books(EDF, ts, x) && Slack(x)
    ensures Slack(Advance(EDF, x))
  {
    var y := Advance(EDF, x);
    AdvanceKeepsBooks(EDF, ts, x);
    PositivePeriods(EDF, ts, y);
    assert |y.tasks| == |y.done| == |ts|;
    hide Head, Books, DemandFits, Backlogs, Sum, Grant, TaskSet;
    forall l: int | y.now <= l
      ensures Sum(Backlogs(y, l)) <= l - y.now
    {
      if Idle(x.tasks) || l < Due(x.tasks[Head(EDF, x.tasks)], x.done[Head(EDF, x.tasks)]) {
        UnneededStep(ts, x, l);
      } else {
        UsefulQuantum(ts, x, Head(EDF, x.tasks), l);
      }
    }
  }

  /** Slack is what the check asks for: the waiting job must fit together with a quantum of the head. */
  lemma SlackPasses(ts: seq<Task>, x: Run)
    requires TaskSet(ts) && Books(EDF, ts, x) && Slack(x) && Lax(x.tasks)
    ensures Check(EDF, x.tasks)
  {
    forall i | 0 <= i < |ts| && Ready(x.tasks[i]) && i != Head(EDF, x.tasks)
      ensures x.tasks[i].CompletionTime() < x.tasks[i].RemainingTime()
    {
      SlackSparesQuantum(ts, x, i);
    }
    CheckMeans(EDF, x.tasks);
  }

  lemma SlackSparesQuantum(ts: seq<Task>, x: Run, i: nat)
    requires TaskSet(ts) && Books(EDF, ts, x) && Slack(x) && Lax(x.tasks)
    requires i < |ts| && Ready(x.tasks[i]) && i != Head(EDF, x.tasks)
    ensures x.tasks[i].CompletionTime() < x.tasks[i].RemainingTime()
  {
    PositivePeriods(EDF, ts, x);
    var h := Head(EDF, x.tasks);
    var l := Due(x.tasks[i], x.done[i]);
    HeadIsBest(EDF, x.tasks);
    DueIsKey(ts, x, i);
    DueIsKey(ts, x, h);
    assert TaskBooks(EDF, ts[i], x.tasks[i], x.done[i], x.now);
    assert TaskBooks(EDF, ts[h], x.tasks[h], x.done[h], x.now);
    BacklogHoldsJob(x.tasks[i], x.done[i], l);
    BacklogHoldsJob(x.tasks[h], x.done[h], l);
    SumPair(Backlogs(x, l), i, h);
  }

  lemma {:induction false} FittingDemandPasses(ts: seq<Task>, n: nat)
    requires TaskSet(ts) && DemandFits(ts)
    ensures Slack(At(EDF, ts, n)) && Check(EDF, At(EDF, ts, n).tasks) && Passes(EDF, ts, n)
  {
    hide At, Slack, Books, Check, DemandFits, TaskSet;
    RunKeepsBooks(EDF, ts, n);
    if n == 0 {
      StartsAtZero(EDF, ts);
      StartHasSlack(ts);
    } else {
      FittingDemandPasses(ts, n - 1);
      NextState(EDF, ts, n - 1);
      RunKeepsBooks(EDF, ts, n - 1);
      EdfKeepsSlack(ts, At(EDF, ts, n - 1));
    }
    StaysLax(EDF, ts, n);
    SlackPasses(ts, At(EDF, ts, n));
  }

  // ---------- main results ----------

  /** EDF passes forever if and only if the demand of every interval length fits into it. */
  lemma EdfIsExact(ts: seq<Task>)
    requires TaskSet(ts)
    ensures PassesForever(EDF, ts) <==> DemandFits(ts)
  {
    hide At, Check;
    if PassesForever(EDF, ts) {
      forall l: nat
        ensures Demand(ts, l) <= l
      {
        PassingFitsDemand(EDF, ts, l);
      }
    }
    if DemandFits(ts) {
      forall n: nat
        ensures Check(EDF, At(EDF, ts, n).tasks)
      {
        FittingDemandPasses(ts, n);
      }
    }
  }

  /** EDF is optimal: what any of the three algorithms schedules forever, EDF does. */
  lemma EdfIsOptimal(alg: Alg, ts: seq<Task>)
    requires TaskSet(ts) && PassesForever(alg, ts)
    ensures PassesForever(EDF, ts)
  {
    hide At, Check, PassesForever;
    forall l: nat
      ensures Demand(ts, l) <= l
    {
      PassingFitsDemand(alg, ts, l);
    }
    EdfIsExact(ts);
  }
}
