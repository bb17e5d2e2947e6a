/**
 Thread priorities over a run: every thread starts at one priority, each round sets those of the queued
 tasks by their positions, and a thread that is not queued keeps what it had.
 */
module Priorities {
  import opened Sums
  import opened Tasks
  import opened Engine
  import opened Bookkeeping
  import opened Feasibility
  import opened Preemption

  const BASE_PRIO := 10
  const MIN_PRIO := 7

  /** The priority of the thread of the m-th task of the queue. */
  function PrioAt(m: nat): int {
    if BASE_PRIO - 1 - m > MIN_PRIO then BASE_PRIO - 1 - m else MIN_PRIO
  }

  function PositionIn(q: seq<nat>, i: nat): (m: nat)
    requires i in q
    ensures m < |q| && q[m] == i
  {
    if q[0] == i then 0 else 1 + PositionIn(q[1..], i)
  }

  /** The loop over the queue q in fixt_algo_run; pr are the priorities before it, task by task. */
  function Reprioritised(q: seq<nat>, pr: seq<int>): (s: seq<int>)
    ensures |s| == |pr|
    ensures forall i: nat :: i < |s| ==> s[i] == if i in q then PrioAt(PositionIn(q, i)) else pr[i]
  {
    seq(|pr|, i requires 0 <= i < |pr| => if i in q then PrioAt(PositionIn(q, i)) else pr[i])
  }

  /** fixt_task_run starts every thread one below the scheduler. */
  function FirstPrios(n: nat): (s: seq<int>)
    ensures |s| == n && forall i :: 0 <= i < n ==> s[i] == BASE_PRIO - 1
  {
    seq(n, _ => BASE_PRIO - 1)
  }

  /** The priorities of all threads after the loops of the first n rounds; an idle round has an empty queue. */
  function Prios(alg: Alg, ts: seq<Task>, n: nat): (pr: seq<int>)
    ensures |pr| == |ts|
  {
    if n == 0 then FirstPrios(|ts|)
    else Reprioritised(Queue(alg, At(alg, ts, n - 1).tasks), Prios(alg, ts, n - 1))
  }

  /** While the scheduler is blocked in round n, no two of all the threads have the same priority. */
  ghost predicate DistinctInRound(alg: Alg, ts: seq<Task>, n: nat) {
    var pr := Prios(alg, ts, n + 1);
    forall i, j :: 0 <= i < j < |ts| ==> pr[i] != pr[j]
  }

  lemma PriosNext(alg: Alg, ts: seq<Task>, n: nat, i: nat)
    requires i < |ts|
    ensures var q := Queue(alg, At(alg, ts, n).tasks);
            Prios(alg, ts, n + 1)[i] == if i in q then PrioAt(PositionIn(q, i)) else Prios(alg, ts, n)[i]
  {
  }

  lemma {:induction false} PriosInRange(alg: Alg, ts: seq<Task>, n: nat, i: nat)
    requires i < |ts|
    ensures 7 <= Prios(alg, ts, n)[i] <= 9
  {
    hide Prios, Queue, At;
    if n == 0 {
      PriosFirst(alg, ts);
    } else {
      PriosInRange(alg, ts, n - 1, i);
      PriosNext(alg, ts, n - 1, i);
    }
  }

  /** Every thread starts at 9, one below the scheduler. */
  lemma PriosFirst(alg: Alg, ts: seq<Task>)
    ensures Prios(alg, ts, 0) == FirstPrios(|ts|)
    ensures forall i :: 0 <= i < |ts| ==> Prios(alg, ts, 0)[i] == 9
  {
  }

  lemma QueuedIsReady(alg: Alg, s: seq<Task>, i: nat)
    requires i < |s|
    ensures i in Queue(alg, s) <==> Ready(s[i])
    ensures Ready(s[i]) ==> !Idle(s) && (PositionIn(Queue(alg, s), i) == 0 <==> i == Head(alg, s))
  {
    QueueMembers(alg, s);
  }

  /**
   In each round the head's thread is just below the scheduler, no thread is above it, and any thread
   that shares its priority is one whose task has no job to run.
   */
  lemma HeadHasTopPrio(alg: Alg, ts: seq<Task>, n: nat, j: nat)
    requires !Idle(At(alg, ts, n).tasks) && j < |ts|
    ensures var s, pr := At(alg, ts, n).tasks, Prios(alg, ts, n + 1);
            && pr[Head(alg, s)] == 9
            && pr[j] <= pr[Head(alg, s)]
            && (j != Head(alg, s) && pr[j] == pr[Head(alg, s)] ==> !Ready(s[j]))
  {
    var s := At(alg, ts, n).tasks;
    var h := Head(alg, s);
    hide At, Queue, Head, Idle, Ready, Prios;
    QueuedIsReady(alg, s, h);
    QueuedIsReady(alg, s, j);
    PriosNext(alg, ts, n, h);
    PriosNext(alg, ts, n, j);
    PriosInRange(alg, ts, n, j);
  }

  /** The better key, or at equal keys the earlier registration. */
  predicate Before(alg: Alg, s: seq<Task>, i: nat, j: nat) {
    i < |s| && j < |s| && (Key(alg, s[i]) < Key(alg, s[j]) || (Key(alg, s[i]) == Key(alg, s[j]) && i < j))
  }

  lemma BeforeInQueue(alg: Alg, s: seq<Task>, i: nat, j: nat)
    requires Before(alg, s, i, j) && Ready(s[i]) && Ready(s[j])
    ensures i in Queue(alg, s) && j in Queue(alg, s)
    ensures PositionIn(Queue(alg, s), i) < PositionIn(Queue(alg, s), j) < |ReadyFrom(s, 0)|
  {
    QueueMembers(alg, s);
    hide Queue, Ready, Key, ReadyFrom;
    var m, n := PositionIn(Queue(alg, s), i), PositionIn(Queue(alg, s), j);
    if n < m {
      QueueIsInOrder(alg, s, n, m);
    }
  }

  /**
   In each round the priorities of the ready tasks descend with the keys: a task before another is never
   below it, and is above it while at most three are ready.
   */
  lemma PrioritiesFollowKeys(alg: Alg, ts: seq<Task>, n: nat, i: nat, j: nat)
    requires i < |ts| && j < |ts|
    requires var s := At(alg, ts, n).tasks; Before(alg, s, i, j) && Ready(s[i]) && Ready(s[j])
    ensures Prios(alg, ts, n + 1)[i] >= Prios(alg, ts, n + 1)[j]
    ensures |ReadyFrom(At(alg, ts, n).tasks, 0)| <= 3 ==> Prios(alg, ts, n + 1)[i] > Prios(alg, ts, n + 1)[j]
  {
    hide At, Queue, Ready, Prios, ReadyFrom, Before;
    BeforeInQueue(alg, At(alg, ts, n).tasks, i, j);
    PriosNext(alg, ts, n, i);
    PriosNext(alg, ts, n, j);
  }

  // ---------- within one queue ----------

  /** No two threads of the queue are given the same priority. */
  ghost predicate DistinctInQueue(alg: Alg, v: seq<Task>) {
    forall i, j :: 0 <= i < j < |Queue(alg, v)| ==> PrioAt(i) != PrioAt(j)
  }

  lemma QueuePriosAreDistinct(alg: Alg, v: seq<Task>)
    ensures DistinctInQueue(alg, v) <==> |ReadyFrom(v, 0)| <= 3
  {
    QueueMembers(alg, v);
    if |ReadyFrom(v, 0)| > 3 {
      assert PrioAt(2) == PrioAt(3);
    }
  }

  // ---------- all threads, round by round ----------

  predicate AllReady(s: seq<Task>) {
    forall i :: 0 <= i < |s| ==> Ready(s[i])
  }

  lemma {:induction false} AllAreCollected(s: seq<Task>, i: nat)
    requires AllReady(s) && i <= |s|
    ensures |ReadyFrom(s, i)| == |s| - i
    decreases |s| - i
  {
    if i < |s| {
      AllAreCollected(s, i + 1);
    }
  }

  lemma PositionIs(alg: Alg, s: seq<Task>, m: nat)
    requires m < |Queue(alg, s)|
    ensures Queue(alg, s)[m] in Queue(alg, s) && PositionIn(Queue(alg, s), Queue(alg, s)[m]) == m
    ensures Queue(alg, s)[m] < |s|
  {
    QueueMembers(alg, s);
  }

  lemma QueuedPair(alg: Alg, ts: seq<Task>, n: nat, i: nat, j: nat)
    requires i < j < |ts| && |Queue(alg, At(alg, ts, n).tasks)| <= 3
    requires Ready(At(alg, ts, n).tasks[i]) && Ready(At(alg, ts, n).tasks[j])
    ensures Prios(alg, ts, n + 1)[i] != Prios(alg, ts, n + 1)[j]
  {
    hide At, Queue, Prios, Ready, Head, Idle;
    QueuedIsReady(alg, At(alg, ts, n).tasks, i);
    QueuedIsReady(alg, At(alg, ts, n).tasks, j);
    PriosNext(alg, ts, n, i);
    PriosNext(alg, ts, n, j);
  }

  lemma ThirdAndFourth(alg: Alg, ts: seq<Task>, n: nat)
    requires |Queue(alg, At(alg, ts, n).tasks)| > 3
    ensures !DistinctInRound(alg, ts, n)
  {
    var s := At(alg, ts, n).tasks;
    var i, j := Queue(alg, s)[2], Queue(alg, s)[3];
    hide At, Queue, Prios;
    PositionIs(alg, s, 2);
    PositionIs(alg, s, 3);
    PriosNext(alg, ts, n, i);
    PriosNext(alg, ts, n, j);
    var pr := Prios(alg, ts, n + 1);
    assert pr[i] == pr[j] && i != j;
  }

  /** With every task queued, all threads have different priorities just when there are at most three. */
  lemma FullQueue(alg: Alg, ts: seq<Task>, n: nat)
    requires AllReady(At(alg, ts, n).tasks)
    ensures DistinctInRound(alg, ts, n) <==> |ts| <= 3
  {
    var s, pr := At(alg, ts, n).tasks, Prios(alg, ts, n + 1);
    hide At, Queue, Prios, ReadyFrom, Ready;
    QueueMembers(alg, s);
    AllAreCollected(s, 0);
    if |ts| <= 3 {
      forall i, j | 0 <= i < j < |ts|
        ensures pr[i] != pr[j]
      {
        QueuedPair(alg, ts, n, i, j);
      }
    } else {
      ThirdAndFourth(alg, ts, n);
    }
  }

  /** A head that leaves the queue keeps the top priority, and the next head is given the same one. */
  lemma NextHeadShares(alg: Alg, ts: seq<Task>, n: nat)
    requires !Idle(At(alg, ts, n).tasks) && !Idle(At(alg, ts, n + 1).tasks)
    requires !Ready(At(alg, ts, n + 1).tasks[Head(alg, At(alg, ts, n).tasks)])
    ensures !DistinctInRound(alg, ts, n + 1)
  {
    hide At, Head, Prios, Queue, Idle, Ready;
    var h, g := Head(alg, At(alg, ts, n).tasks), Head(alg, At(alg, ts, n + 1).tasks);
    QueuedIsReady(alg, At(alg, ts, n + 1).tasks, h);
    PriosNext(alg, ts, n + 1, h);
    HeadHasTopPrio(alg, ts, n, h);
    HeadHasTopPrio(alg, ts, n + 1, g);
    var pr := Prios(alg, ts, n + 2);
    assert pr[h] == pr[g] && h != g;
  }

  lemma AllReadyAtStart(alg: Alg, ts: seq<Task>)
    requires TaskSet(ts)
    ensures AllReady(At(alg, ts, 0).tasks) && !Idle(Restart(ts))
  {
    StartsAtZero(alg, ts);
    assert Ready(Restart(ts)[0]);
  }

  /** When all were ready and no longer are, it is the head that has left, and the others have not. */
  lemma HeadHasLeft(alg: Alg, ts: seq<Task>, x: Run)
    requires TaskSet(ts) && |ts| > 1 && Books(alg, ts, x)
    requires AllReady(x.tasks) && !AllReady(Step(alg, x.tasks))
    ensures !Idle(x.tasks) && !Ready(Step(alg, x.tasks)[Head(alg, x.tasks)]) && !Idle(Step(alg, x.tasks))
  {
    assert Ready(x.tasks[0]);
    var s, h := x.tasks, Head(alg, x.tasks);
    assert ts[h].WellFormed() && TaskBooks(alg, ts[h], s[h], x.done[h], x.now);
    hide Head, Books, TaskSet;
    var s' := RunHead(alg, s, h);
    assert Step(alg, s) == s';
    forall i | 0 <= i < |ts| && i != h
      ensures Ready(s'[i])
    {
      assert Ready(s[i]);
    }
    assert Ready(s'[if h == 0 then 1 else 0]);
  }

  lemma {:induction false} DistinctMeansReady(alg: Alg, ts: seq<Task>, n: nat, m: nat)
    requires TaskSet(ts) && |ts| > 1 && m < n
    requires DistinctFor(alg, ts, n)
    ensures AllReady(At(alg, ts, m).tasks)
  {
    hide At, TaskSet, DistinctInRound, AllReady, Idle, Ready, Head, Step, Books;
    AllReadyAtStart(alg, ts);
    if m > 0 {
      DistinctMeansReady(alg, ts, n, m - 1);
      if !AllReady(At(alg, ts, m).tasks) {
        RunKeepsBooks(alg, ts, m - 1);
        RunFollowsStep(alg, ts, m - 1);
        HeadHasLeft(alg, ts, At(alg, ts, m - 1));
        NextHeadShares(alg, ts, m - 1);
      }
    }
  }

  /** All threads have different priorities in each of the first n rounds. */
  ghost predicate DistinctFor(alg: Alg, ts: seq<Task>, n: nat) {
    forall m: nat :: m < n ==> DistinctInRound(alg, ts, m)
  }

  /** No task is out of the queue in any of the first n rounds. */
  ghost predicate QueuedFor(alg: Alg, ts: seq<Task>, n: nat) {
    forall m: nat :: m < n ==> AllReady(At(alg, ts, m).tasks)
  }

  lemma QueuedAreDistinct(alg: Alg, ts: seq<Task>, n: nat)
    requires n == 0 || |ts| <= 1 || (|ts| <= 3 && QueuedFor(alg, ts, n))
    ensures DistinctFor(alg, ts, n)
  {
    hide AllReady, Prios;
    forall m: nat | m < n
      ensures DistinctInRound(alg, ts, m)
    {
      if |ts| > 1 {
        FullQueue(alg, ts, m);
      }
    }
  }

  lemma DistinctAreQueued(alg: Alg, ts: seq<Task>, n: nat)
    requires TaskSet(ts) && |ts| > 1 && n > 0 && DistinctFor(alg, ts, n)
    ensures |ts| <= 3 && QueuedFor(alg, ts, n)
  {
    hide AllReady, DistinctInRound;
    forall m: nat | m < n
      ensures AllReady(At(alg, ts, m).tasks)
    {
      DistinctMeansReady(alg, ts, n, m);
    }
    FullQueue(alg, ts, 0);
  }

  /**
   Exactly when all threads have different priorities in each of the first n rounds: there is one task, or
   there are at most three and none of them is out of the queue in any of these rounds.
   */
  lemma PrioritiesAreDistinct(alg: Alg, ts: seq<Task>, n: nat)
    requires TaskSet(ts)
    ensures DistinctFor(alg, ts, n) <==> n == 0 || |ts| == 1 || (|ts| <= 3 && QueuedFor(alg, ts, n))
  {
    hide DistinctFor, QueuedFor;
    if n > 0 && |ts| > 1 && DistinctFor(alg, ts, n) {
      DistinctAreQueued(alg, ts, n);
    }
    if n == 0 || |ts| == 1 || (|ts| <= 3 && QueuedFor(alg, ts, n)) {
      QueuedAreDistinct(alg, ts, n);
    }
  }

  // ---------- the first completion ----------

  /** Every task is ready with its first job, of which h, the head, has run for q quanta and the others for none. */
  predicate FirstJob(alg: Alg, ts: seq<Task>, s: seq<Task>, h: nat, q: int) {
    && h < |s| == |ts|
    && (forall i :: 0 <= i < |ts| ==> s[i] == ts[i].(a := if i == h then q else 0, r := 0 - q))
    && 0 <= q < ts[h].c && Ready(s[h]) && Head(alg, s) == h
  }

  lemma FirstJobGoesOn(alg: Alg, ts: seq<Task>, s: seq<Task>, h: nat, q: int)
    requires alg != RMA && FirstJob(alg, ts, s, h, q) && q + 1 < ts[h].c
    ensures FirstJob(alg, ts, Step(alg, s), h, q + 1)
  {
    hide Head;
    HeadStays(alg, s);
    assert Step(alg, s) == RunHead(alg, s, h);
  }

  lemma FirstJobBegins(alg: Alg, ts: seq<Task>, h: nat)
    requires h < |ts| && ts[h].c > 0 && !Idle(Restart(ts)) && h == Head(alg, Restart(ts))
    ensures FirstJob(alg, ts, Start(ts).tasks, h, 0)
  {
  }

  /** Before any job is complete every task is ready, and under EDF and SCT the first head keeps the processor. */
  lemma {:induction false} FirstJobRuns(alg: Alg, ts: seq<Task>, h: nat, q: nat)
    requires TaskSet(ts) && alg != RMA && h < |ts|
    requires !Idle(Restart(ts)) && h == Head(alg, Restart(ts)) && q < ts[h].c
    ensures FirstJob(alg, ts, At(alg, ts, q).tasks, h, q)
  {
    hide FirstJob, At, Head, Idle, TaskSet, Step, Restart;
    StartsAtZero(alg, ts);
    if q == 0 {
      FirstJobBegins(alg, ts, h);
    } else {
      FirstJobRuns(alg, ts, h, q - 1);
      FirstJobGoesOn(alg, ts, At(alg, ts, q - 1).tasks, h, q - 1);
      RunFollowsStep(alg, ts, q - 1);
    }
  }

  /** The first job of h is done, and nobody else has run. */
  predicate FirstJobDone(ts: seq<Task>, s: seq<Task>, h: nat) {
    && h < |s| == |ts|
    && forall i :: 0 <= i < |ts| ==> s[i].r == if i == h then ts[h].p - ts[h].c else -ts[h].c
  }

  lemma FirstJobEnds(alg: Alg, ts: seq<Task>, s: seq<Task>, h: nat)
    requires alg != RMA && h < |ts| && FirstJob(alg, ts, s, h, ts[h].c - 1)
    ensures !Idle(s) && FirstJobDone(ts, Step(alg, s), h)
  {
    hide Head;
    assert Step(alg, s) == RunHead(alg, s, h);
  }

  lemma FirstJobAtOnce(ts: seq<Task>, h: nat)
    requires !Idle(Restart(ts)) && h == Head(RMA, Restart(ts))
    ensures FirstJobDone(ts, Step(RMA, Restart(ts)), h)
  {
    hide Head;
  }

  /** The round in which the first head completes its job. */
  lemma FirstJobCompletes(alg: Alg, ts: seq<Task>, h: nat) returns (n: nat)
    requires TaskSet(ts) && h < |ts|
    requires !Idle(Restart(ts)) && h == Head(alg, Restart(ts))
    ensures n == if alg == RMA then 0 else ts[h].c - 1
    ensures !Idle(At(alg, ts, n).tasks) && Head(alg, At(alg, ts, n).tasks) == h
    ensures FirstJobDone(ts, At(alg, ts, n + 1).tasks, h)
  {
    assert ts[h].WellFormed();
    n := if alg == RMA then 0 else ts[h].c - 1;
    hide FirstJob, FirstJobDone, At, Head, Idle, TaskSet, Step, Restart;
    RunFollowsStep(alg, ts, n);
    if alg == RMA {
      StartsAtZero(alg, ts);
      FirstJobAtOnce(ts, h);
    } else {
      FirstJobRuns(alg, ts, h, n);
      FirstJobHeads(alg, ts, At(alg, ts, n).tasks, h, n);
      FirstJobEnds(alg, ts, At(alg, ts, n).tasks, h);
    }
  }

  lemma FirstJobHeads(alg: Alg, ts: seq<Task>, s: seq<Task>, h: nat, q: int)
    requires FirstJob(alg, ts, s, h, q)
    ensures !Idle(s) && Head(alg, s) == h
  {
  }

  lemma OthersAreReady(ts: seq<Task>, s: seq<Task>, h: nat)
    requires TaskSet(ts) && |ts| > 1 && FirstJobDone(ts, s, h) && ts[h].c < ts[h].p
    ensures !Ready(s[h]) && !Idle(s)
  {
    assert ts[h].WellFormed();
    assert Ready(s[if h == 0 then 1 else 0]);
  }

  /** With two tasks or more, a thread has left by the first completion, unless the first head needs all of its period. */
  lemma FirstCompletionShares(alg: Alg, ts: seq<Task>, h: nat) returns (n: nat)
    requires TaskSet(ts) && |ts| > 1 && !Idle(Restart(ts)) && h == Head(alg, Restart(ts))
    requires h < |ts| && ts[h].c < ts[h].p
    ensures n == if alg == RMA then 1 else ts[h].c
    ensures !DistinctInRound(alg, ts, n)
  {
    hide *;
    var m := FirstJobCompletes(alg, ts, h);
    OthersAreReady(ts, At(alg, ts, m + 1).tasks, h);
    NextHeadShares(alg, ts, m);
    n := m + 1;
  }

  lemma ReadyUntilCompletion(alg: Alg, ts: seq<Task>, h: nat, m: nat)
    requires TaskSet(ts) && h < |ts| && !Idle(Restart(ts)) && h == Head(alg, Restart(ts))
    requires m < if alg == RMA then 1 else ts[h].c
    ensures AllReady(At(alg, ts, m).tasks)
  {
    hide At, Head, TaskSet, Idle, Restart;
    if alg == RMA {
      AllReadyAtStart(alg, ts);
    } else {
      FirstJobRuns(alg, ts, h, m);
    }
  }

  /** Which rounds those are, by the parameters alone: the threads differ until the first head's job is complete. */
  lemma DistinctUntilCompletion(alg: Alg, ts: seq<Task>, h: nat, n: nat)
    requires TaskSet(ts) && |ts| > 1 && !Idle(Restart(ts)) && h == Head(alg, Restart(ts))
    requires h < |ts| && ts[h].c < ts[h].p
    ensures DistinctFor(alg, ts, n) <==> n == 0 || (|ts| <= 3 && n <= if alg == RMA then 1 else ts[h].c)
  {
    hide At, Head, TaskSet, Idle, Restart, DistinctInRound, AllReady;
    var l := FirstCompletionShares(alg, ts, h);
    if n > 0 && DistinctFor(alg, ts, n) {
      DistinctAreQueued(alg, ts, n);
    }
    if n <= l {
      forall m: nat | m < n
        ensures AllReady(At(alg, ts, m).tasks)
      {
        ReadyUntilCompletion(alg, ts, h, m);
      }
    }
    if n == 0 || (|ts| <= 3 && n <= l) {
      QueuedAreDistinct(alg, ts, n);
    }
  }

  lemma FullPeriods(p: int, d: int)
    requires p >= 1 && d >= 1
    ensures (d - 1) * p + p == p * d && d <= p * d
  {
  }

  /** A task that needs all of its period leaves no room for another. */
  lemma PassingLeavesRoom(alg: Alg, ts: seq<Task>, h: nat, j: nat)
    requires TaskSet(ts) && PassesForever(alg, ts) && h < |ts| && j < |ts| && h != j
    ensures ts[h].c < ts[h].p
  {
    assert ts[h].WellFormed() && ts[j].WellFormed();
    if ts[h].c == ts[h].p {
      PassingFitsDemandOf(alg, ts, h, j);
      FullDemand(ts[h], ts[j]);
    }
  }

  lemma PassingFitsDemandOf(alg: Alg, ts: seq<Task>, h: nat, j: nat)
    requires TaskSet(ts) && PassesForever(alg, ts) && h < |ts| && j < |ts| && h != j
    ensures forall l: nat :: ts[h].p > 0 && ts[j].p > 0 && JobsDue(ts[h], l) * ts[h].c + JobsDue(ts[j], l) * ts[j].c <= l
  {
    assert ts[h].WellFormed() && ts[j].WellFormed();
    forall l: nat
      ensures JobsDue(ts[h], l) * ts[h].c + JobsDue(ts[j], l) * ts[j].c <= l
    {
      hide PassesForever, JobsDue;
      PassingFitsDemand(alg, ts, l);
      forall k | 0 <= k < |ts|
        ensures 0 <= Demands(ts, l)[k]
      {
        DemandIsNatural(ts[k], l);
      }
      SumPair(Demands(ts, l), h, j);
    }
  }

  lemma DemandIsNatural(t: Task, l: int)
    requires t.p > 0 && t.c >= 0
    ensures 0 <= JobsDue(t, l) * t.c
  {
    JobsFromLater(t, 0, 0, l);
    Scaled(0, JobsDue(t, l), t.c);
  }

  lemma FullDemand(t: Task, u: Task)
    requires t.WellFormed() && u.WellFormed() && t.c == t.p
    ensures t.p * u.d >= 0
    ensures JobsDue(t, t.p * u.d) * t.c + JobsDue(u, t.p * u.d) * u.c > t.p * u.d
  {
    var l := t.p * u.d;
    FullPeriods(t.p, u.d);
    JobsDueMeans(t, l, u.d - 1);
    JobsDueMeans(u, l, 0);
    var m, n := JobsDue(t, l), JobsDue(u, l);
    hide JobsDue;
    Scaled(u.d, m, t.c);
    Scaled(1, n, u.c);
  }

  /** A set that passes forever keeps its threads at different priorities in every round just when it has one task. */
  lemma PrioritiesStayDistinct(alg: Alg, ts: seq<Task>)
    requires TaskSet(ts) && PassesForever(alg, ts)
    ensures (forall n: nat :: DistinctInRound(alg, ts, n)) <==> |ts| == 1
  {
    hide PassesForever, Prios;
    if |ts| > 1 {
      AllReadyAtStart(alg, ts);
      var h := Head(alg, Restart(ts));
      PassingLeavesRoom(alg, ts, h, if h == 0 then 1 else 0);
      var n := FirstCompletionShares(alg, ts, h);
    }
  }
}
