/**
 SCT against all schedules: while SCT passes its checks, no assignment of quanta that serves each job
 within its period, idling at will or not, has completed more jobs at any instant.
 */
module Supremacy {
  import opened Sums
  import opened Tasks
  import opened Engine
  import opened Bookkeeping
  import opened Deadlines
  import opened Majorization
  import opened Throughput
  import opened Dominance
  import opened Delays
  import opened Optimality

  /** At its k-th release the task has been given its earlier jobs whole, and nothing else. */
  ghost predicate InPeriod(f: Schedule, i: nat, t: Task, k: nat) {
    Given(f, i, k * t.p) == k * t.c
  }

  ghost predicate KeepsPace(f: Schedule, ts: seq<Task>) {
    forall i: nat, k: nat | i < |ts| :: InPeriod(f, i, ts[i], k)
  }

  /** Jobs of c quanta each that g quanta complete. */
  function Completed(g: nat, c: int): nat {
    if c <= 0 || g < c then 0 else 1 + Completed(g - c, c)
  }

  function CompletedJobs(f: Schedule, ts: seq<Task>, now: int): (s: seq<int>)
    ensures |s| == |ts|
    ensures forall i: nat :: i < |ts| ==> s[i] == Completed(Given(f, i, now), ts[i].c)
  {
    seq(|ts|, i requires 0 <= i < |ts| => Completed(Given(f, i, now), ts[i].c))
  }

  /** What is left to run, at time now, of the jobs released by then. */
  function Outstanding(f: Schedule, i: nat, t: Task, now: int): int
    requires t.p > 0
  {
    ReleasedBy(t, now) * t.c - Given(f, i, now)
  }

  // ---------- one task ----------

  lemma {:induction false} WholeJobs(n: nat, g: nat, c: int)
    requires n * c <= g < n * c + c
    ensures Completed(g, c) == n
  {
    if n == 0 {
      assert c > 0;
    } else {
      assert n * c == (n - 1) * c + c;
      Scaled(0, n - 1, c);
      WholeJobs(n - 1, g - c, c);
    }
  }

  /** Within the n-th period the task has its first n - 1 jobs behind it and is somewhere in the n-th. */
  lemma PeriodOf(f: Schedule, i: nat, t: Task, now: nat)
    requires t.WellFormed() && forall k: nat :: InPeriod(f, i, t, k)
    ensures var n := ReleasedBy(t, now);
            && n >= 1 && (n - 1) * t.p <= now < n * t.p
            && (n - 1) * t.c <= Given(f, i, now) <= n * t.c
            && Given(f, i, n * t.p) == n * t.c
  {
    var n := ReleasedBy(t, now);
    ReleasedByMeans(t, now, 0);
    ReleasedByMeans(t, now, n - 1);
    ReleasedByMeans(t, now, n);
    assert InPeriod(f, i, t, n - 1) && InPeriod(f, i, t, n);
    GivenIsMonotone(f, i, (n - 1) * t.p, now);
    GivenIsMonotone(f, i, now, n * t.p);
  }

  lemma OutstandingIsOneJob(f: Schedule, i: nat, t: Task, now: nat)
    requires t.WellFormed() && forall k: nat :: InPeriod(f, i, t, k)
    ensures 0 <= Outstanding(f, i, t, now) <= t.c
    ensures Completed(Given(f, i, now), t.c) == ReleasedBy(t, now) - if Outstanding(f, i, t, now) > 0 then 1 else 0
  {
    var n, g := ReleasedBy(t, now), Given(f, i, now);
    PeriodOf(f, i, t, now);
    assert n * t.c == (n - 1) * t.c + t.c;
    WholeJobs(if g < n * t.c then n - 1 else n, g, t.c);
  }

  lemma ReleasedNext(t: Task, now: nat)
    requires t.WellFormed()
    ensures var n := ReleasedBy(t, now);
            && ((now + 1) % t.p == 0 <==> now + 1 == n * t.p)
            && ReleasedBy(t, now + 1) == if now + 1 == n * t.p then n + 1 else n
  {
    var n, m := ReleasedBy(t, now), ReleasedBy(t, now + 1);
    ReleasedByMeans(t, now, 0);
    ReleasedByMeans(t, now, n - 1);
    ReleasedByMeans(t, now, n);
    ReleasedByMeans(t, now + 1, n - 1);
    ReleasedByMeans(t, now + 1, n);
    ReleasedByMeans(t, now + 1, n + 1);
    hide ReleasedBy;
    NextMultiple(n, t.p);
    ReleaseIsZeroR(n, t.p, n * t.p - (now + 1), now + 1);
  }

  lemma NextMultiple(n: int, p: int)
    ensures (n + 1) * p == n * p + p && (n - 1) * p == n * p - p
  {
  }

  /** What a quantum, and the release at its end, do to the outstanding work. */
  lemma OutstandingNext(f: Schedule, i: nat, t: Task, now: nat)
    requires t.WellFormed() && forall k: nat :: InPeriod(f, i, t, k)
    ensures var left := Outstanding(f, i, t, now) - if f(now) == For(i) then 1 else 0;
            var a := if (now + 1) % t.p == 0 then t.c else 0;
            0 <= left && Outstanding(f, i, t, now + 1) == left + a && (left == 0 || a == 0)
  {
    var n := ReleasedBy(t, now);
    PeriodOf(f, i, t, now);
    ReleasedNext(t, now);
    OutstandingIsOneJob(f, i, t, now + 1);
    NextMultiple(n, t.c);
    hide ReleasedBy;
  }

  // ---------- the simulation ----------

  /** v is no more than what each task has outstanding, and SCT is ahead of v. */
  ghost predicate Below(f: Schedule, ts: seq<Task>, x: Run, v: seq<int>)
    requires TaskSet(ts)
  {
    && Majorizes(Lefts(x), v) && |v| == |ts|
    && forall i: nat :: i < |ts| ==> ts[i].p > 0 && v[i] <= Outstanding(f, i, ts[i], x.now)
  }

  /** A vector that takes the quantum from where the schedule does, or from anywhere if v has nothing there. */
  lemma ServedEntry(slot: Slot, v: seq<int>) returns (k: nat)
    requires NonNegative(v) && Excess(v, 0) > 0
    ensures k < |v| && v[k] > 0
    ensures forall j: nat :: j < |v| && slot == For(j) && j != k ==> v[j] == 0
  {
    if i: nat :| i < |v| && slot == For(i) && v[i] > 0 {
      k := i;
    } else {
      if forall i :: 0 <= i < |v| ==> v[i] <= 0 {
        SumZero(Over(v, 0));
      }
      k :| 0 <= k < |v| && v[k] > 0;
    }
  }

  /** One entry of the vectors after the quantum. */
  lemma EntryNext(f: Schedule, ts: seq<Task>, now: nat, v: seq<int>, k: nat, i: nat)
    requires TaskSet(ts) && KeepsPace(f, ts) && i < |ts| == |v| && k < |v| && v[k] > 0 && v[i] >= 0
    requires ts[i].p > 0 && v[i] <= Outstanding(f, i, ts[i], now)
    requires f(now) == For(i) && i != k ==> v[i] == 0
    ensures var u := if i == k then v[i] - 1 else v[i];
            var a := if (now + 1) % ts[i].p == 0 then ts[i].c else 0;
            0 <= a && 0 <= u && (u == 0 || a == 0) && u + a <= Outstanding(f, i, ts[i], now + 1)
  {
    assert ts[i].WellFormed();
    assert forall j: nat :: InPeriod(f, i, ts[i], j);
    hide Outstanding;
    OutstandingNext(f, i, ts[i], now);
  }

  lemma VectorNext(f: Schedule, ts: seq<Task>, x: Run, v: seq<int>, k: nat) returns (v': seq<int>)
    requires TaskSet(ts) && KeepsPace(f, ts) && Below(f, ts, x, v) && x.now >= 0
    requires k < |v| && v[k] > 0
    requires forall j: nat :: j < |v| && f(x.now) == For(j) && j != k ==> v[j] == 0
    ensures |v'| == |ts| && forall i: nat :: i < |ts| ==> ts[i].p > 0
    ensures Arrives(v[k := v[k] - 1], Arrivals(ts, x.now + 1), v')
    ensures forall i: nat :: i < |ts| ==> v'[i] <= Outstanding(f, i, ts[i], x.now + 1)
  {
    PeriodsArePositive(ts);
    var u, a := v[k := v[k] - 1], Arrivals(ts, x.now + 1);
    v' := seq(|ts|, i requires 0 <= i < |ts| => u[i] + a[i]);
    hide Outstanding, TaskSet, KeepsPace;
    forall i: nat | i < |ts|
      ensures 0 <= a[i] && 0 <= u[i] && (u[i] == 0 || a[i] == 0) && v'[i] <= Outstanding(f, i, ts[i], x.now + 1)
    {
      EntryNext(f, ts, x.now, v, k, i);
    }
  }

  /** What SCT does in a quantum, in vectors. */
  lemma SctQuantum(ts: seq<Task>, x: Run) returns (h: nat)
    requires TaskSet(ts) && Books(SCT, ts, x) && OnePending(x) && !Idle(x.tasks) && OnePending(Advance(SCT, x))
    ensures h < |ts| == |Lefts(x)| && Lefts(x)[h] > 0 && 0 <= x.now && Advance(SCT, x).now == x.now + 1
    ensures forall k :: 0 <= k < |ts| && Lefts(x)[k] > 0 ==> Lefts(x)[h] <= Lefts(x)[k]
    ensures Excess(Lefts(x), 0) > 0
    ensures forall i :: 0 <= i < |ts| ==> ts[i].p > 0
    ensures Arrives(Lefts(x)[h := Lefts(x)[h] - 1], Arrivals(ts, x.now + 1), Lefts(Advance(SCT, x)))
  {
    h := Head(SCT, x.tasks);
    assert |x.tasks| == |ts| && 0 <= x.now;
    HeadIsShortest(ts, x);
    IdleMeansNothingLeft(ts, x);
    GrantTakesQuantum(x, h);
    QuantumArrives(ts, x, h);
    hide Books, TaskSet, OnePending, Head, Arrives, Arrivals;
    SumAtLeast(Over(Lefts(x), 0));
  }

  lemma BusyStaysBelow(f: Schedule, ts: seq<Task>, x: Run, v: seq<int>) returns (v': seq<int>)
    requires TaskSet(ts) && KeepsPace(f, ts) && Books(SCT, ts, x) && Below(f, ts, x, v)
    requires OnePending(x) && !Idle(x.tasks) && OnePending(Advance(SCT, x))
    ensures Below(f, ts, Advance(SCT, x), v')
  {
    var h := SctQuantum(ts, x);
    hide Books, TaskSet, KeepsPace, OnePending, Idle, Advance, Arrivals, Arrives, Outstanding, Lefts;
    var k := ServedEntry(f(x.now), v);
    v' := VectorNext(f, ts, x, v, k);
    QuantumMajorizes(Lefts(x), v, h, k, Arrivals(ts, x.now + 1), Lefts(Advance(SCT, x)), v');
  }

  /** With all released jobs of the task complete, or its job just released, SCT has no more left than anybody. */
  lemma LeftIsLeast(f: Schedule, ts: seq<Task>, x: Run, i: nat)
    requires TaskSet(ts) && KeepsPace(f, ts) && Books(SCT, ts, x) && i < |ts|
    requires x.tasks[i].r >= 0 && x.tasks[i].a == 0
    ensures ts[i].p > 0 && 0 <= Left(x.tasks[i]) <= Outstanding(f, i, ts[i], x.now)
  {
    var k, n := x.done[i], ReleasedBy(ts[i], x.now);
    assert ts[i].WellFormed() && TaskBooks(SCT, ts[i], x.tasks[i], k, x.now);
    assert InPeriod(f, i, ts[i], k) && forall j: nat :: InPeriod(f, i, ts[i], j);
    OutstandingIsOneJob(f, i, ts[i], x.now);
    if Ready(x.tasks[i]) {
      assert x.now == k * ts[i].p;
      ReleasedByMeans(ts[i], x.now, k);
      hide ReleasedBy;
      Scaled(k + 1, n, ts[i].c);
      NextMultiple(k, ts[i].c);
    }
  }

  lemma FreshIsBelow(f: Schedule, ts: seq<Task>, x: Run)
    requires TaskSet(ts) && KeepsPace(f, ts) && Books(SCT, ts, x)
    requires forall i :: 0 <= i < |ts| ==> x.tasks[i].r >= 0 && x.tasks[i].a == 0
    ensures Below(f, ts, x, Lefts(x))
  {
    forall i: nat | i < |ts|
      ensures ts[i].p > 0 && 0 <= Lefts(x)[i] <= Outstanding(f, i, ts[i], x.now)
    {
      LeftIsLeast(f, ts, x, i);
    }
  }

  lemma RestIsFresh(ts: seq<Task>, x: Run)
    requires TaskSet(ts) && Books(SCT, ts, x) && Idle(x.tasks)
    ensures forall i :: 0 <= i < |ts| ==> Rest(x).tasks[i].r >= 0 && Rest(x).tasks[i].a == 0
  {
    forall i | 0 <= i < |ts|
      ensures x.tasks[i].a == 0 && Rest(x).tasks[i].r >= 0
    {
      assert TaskBooks(SCT, ts[i], x.tasks[i], x.done[i], x.now) && !Ready(x.tasks[i]);
    }
  }

  lemma StepStaysBelow(f: Schedule, ts: seq<Task>, x: Run, v: seq<int>) returns (v': seq<int>)
    requires TaskSet(ts) && KeepsPace(f, ts) && Books(SCT, ts, x) && Below(f, ts, x, v)
    requires OnePending(x) && OnePending(Advance(SCT, x))
    ensures Below(f, ts, Advance(SCT, x), v')
  {
    hide Books, TaskSet, KeepsPace, OnePending, Below, Idle, Grant, Head;
    if Idle(x.tasks) {
      RestKeepsBooks(SCT, ts, x);
      RestIsFresh(ts, x);
      FreshIsBelow(f, ts, Rest(x));
      v' := Lefts(Rest(x));
    } else {
      v' := BusyStaysBelow(f, ts, x, v);
    }
  }

  lemma {:induction false} BelowAt(f: Schedule, ts: seq<Task>, n: nat) returns (v: seq<int>)
    requires TaskSet(ts) && KeepsPace(f, ts) && Passes(SCT, ts, n)
    ensures Below(f, ts, At(SCT, ts, n), v)
  {
    hide Advance, TaskSet, KeepsPace, Below, OnePending, Check, At, Books;
    StaysOnePending(SCT, ts, n);
    if n == 0 {
      StartsAtZero(SCT, ts);
      StartBooks(SCT, ts);
      FreshIsBelow(f, ts, Start(ts));
      v := Lefts(Start(ts));
    } else {
      var u := BelowAt(f, ts, n - 1);
      StaysOnePending(SCT, ts, n - 1);
      RunKeepsBooks(SCT, ts, n - 1);
      NextState(SCT, ts, n - 1);
      v := StepStaysBelow(f, ts, At(SCT, ts, n - 1), u);
    }
  }

  // ---------- counting ----------

  function Releases(ts: seq<Task>, now: int): (s: seq<int>)
    requires forall i :: 0 <= i < |ts| ==> ts[i].p > 0
    ensures |s| == |ts| && forall i: nat :: i < |ts| ==> s[i] == ReleasedBy(ts[i], now)
  {
    seq(|ts|, i requires 0 <= i < |ts| => ReleasedBy(ts[i], now))
  }

  /** The jobs the SCT run has had released are those of the clock. */
  lemma ReleasedIsReleasedBy(ts: seq<Task>, x: Run, i: nat)
    requires TaskSet(ts) && Books(SCT, ts, x) && OnePending(x) && i < |ts|
    ensures ts[i].p > 0 && Released(x, i) == ReleasedBy(ts[i], x.now)
  {
    ReleasedWindow(ts, x, i);
    var n := Released(x, i);
    assert ts[i].WellFormed();
    NextMultiple(n, ts[i].p);
    ReleasedByMeans(ts[i], x.now, n);
    if n > 0 {
      ReleasedByMeans(ts[i], x.now, n - 1);
    }
  }

  /** While SCT is ahead of such a vector, the schedule has not completed more jobs. */
  lemma BelowCounts(f: Schedule, ts: seq<Task>, x: Run, v: seq<int>)
    requires TaskSet(ts) && KeepsPace(f, ts) && Books(SCT, ts, x) && OnePending(x) && Below(f, ts, x, v)
    ensures Sum(CompletedJobs(f, ts, x.now)) <= Sum(x.done)
  {
    PeriodsArePositive(ts);
    LeftsAreNonNegative(ts, x);
    var all, done := Releases(ts, x.now), CompletedJobs(f, ts, x.now);
    var w := seq(|ts|, i requires 0 <= i < |ts| => done[i] + Above(v, 0)[i]);
    SumPlus(done, Above(v, 0), w);
    SumPlus(x.done, Above(Lefts(x), 0), all) by {
      forall i: nat | i < |ts|
        ensures all[i] == x.done[i] + Above(Lefts(x), 0)[i]
      {
        ReleasedIsReleasedBy(ts, x, i);
      }
    }
    forall i: nat | i < |ts|
      ensures w[i] <= all[i]
    {
      assert ts[i].WellFormed();
      assert forall k: nat :: InPeriod(f, i, ts[i], k);
      OutstandingIsOneJob(f, i, ts[i], x.now);
    }
    SumLe(w, all);
    FewerEntries(Lefts(x), v);
  }

  /** While SCT is idle it has nothing left to complete. */
  lemma IdleCounts(f: Schedule, ts: seq<Task>, x: Run, t: nat)
    requires TaskSet(ts) && KeepsPace(f, ts) && Books(SCT, ts, x) && Idle(x.tasks)
    requires x.now <= t < Rest(x).now
    ensures Sum(CompletedJobs(f, ts, t)) <= Sum(x.done)
  {
    forall i: nat | i < |ts|
      ensures CompletedJobs(f, ts, t)[i] <= x.done[i]
    {
      assert ts[i].WellFormed() && TaskBooks(SCT, ts[i], x.tasks[i], x.done[i], x.now);
      assert forall k: nat :: InPeriod(f, i, ts[i], k);
      OutstandingIsOneJob(f, i, ts[i], t);
      ReleasedByMeans(ts[i], t, x.done[i]);
    }
    SumLe(CompletedJobs(f, ts, t), x.done);
  }

  // ---------- main results ----------

  /** Every schedule that gives each job its quanta between two releases has completed at most as many jobs as SCT, at every instant. */
  lemma SctOutpaces(f: Schedule, ts: seq<Task>, n: nat, t: nat)
    requires TaskSet(ts) && KeepsPace(f, ts) && Passes(SCT, ts, n)
    requires At(SCT, ts, n).now <= t < At(SCT, ts, n + 1).now
    ensures Sum(CompletedJobs(f, ts, t)) <= Sum(At(SCT, ts, n).done)
  {
    var x := At(SCT, ts, n);
    hide At, TaskSet, KeepsPace, Below, OnePending, Check, Books, Head;
    RunKeepsBooks(SCT, ts, n);
    NextState(SCT, ts, n);
    if Idle(x.tasks) {
      IdleCounts(f, ts, x, t);
    } else {
      GrantTakesQuantum(x, Head(SCT, x.tasks));
      var v := BelowAt(f, ts, n);
      StaysOnePending(SCT, ts, n);
      BelowCounts(f, ts, x, v);
    }
  }

  lemma ServedIsInPeriod(f: Schedule, i: nat, t: Task, k: nat)
    requires t.WellFormed() && forall j: nat :: Serves(f, i, t, j)
    ensures InPeriod(f, i, t, k)
  {
    assert Serves(f, i, t, k);
    if k > 0 {
      assert Serves(f, i, t, k - 1);
      NextMultiple(k, t.p);
      GivenIsMonotone(f, i, Due(t, k - 1), k * t.p);
    }
  }

  /** In particular every schedule, however made, that meets all deadlines. */
  lemma SctOutpacesSchedules(f: Schedule, ts: seq<Task>, n: nat, t: nat)
    requires TaskSet(ts) && Schedules(f, ts) && Passes(SCT, ts, n)
    requires At(SCT, ts, n).now <= t < At(SCT, ts, n + 1).now
    ensures Sum(CompletedJobs(f, ts, t)) <= Sum(At(SCT, ts, n).done)
  {
    forall i: nat, k: nat | i < |ts|
      ensures InPeriod(f, i, ts[i], k)
    {
      assert ts[i].WellFormed();
      assert forall j: nat :: Serves(f, i, ts[i], j);
      ServedIsInPeriod(f, i, ts[i], k);
    }
    hide At, Check, CompletedJobs;
    SctOutpaces(f, ts, n, t);
  }
}
