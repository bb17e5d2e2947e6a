/** Following an SCT run quantum by quantum, by the clock and what each task has left. */
module Simulation {
  import opened Tasks
  import opened Engine
  import opened Bookkeeping
  import opened Majorization
  import opened Throughput
  import opened Dominance
  import opened Hyperperiod
  import opened Utilisation

  /** At time t, within step n of a run that has passed so far, the pending jobs have l left. */
  ghost predicate Follows(ts: seq<Task>, n: nat, t: nat, l: seq<int>) {
    && At(SCT, ts, n).now <= t < At(SCT, ts, n + 1).now
    && l == Lefts(At(SCT, ts, n)) && Passes(SCT, ts, n)
  }

  /** h is the first of the shortest pending jobs. */
  predicate Picks(l: seq<int>, h: nat) {
    && h < |l| && l[h] > 0
    && (forall k :: 0 <= k < |l| && l[k] > 0 ==> l[h] <= l[k])
    && forall k :: 0 <= k < h && l[k] > 0 ==> l[h] < l[k]
  }

  /** The time since the last release of a task with period p. */
  function Elapsed(t: nat, p: nat): nat
    requires p > 0
  {
    if t < p then t else Elapsed(t - p, p)
  }

  lemma {:induction false} ElapsedIs(t: nat, p: nat)
    requires p > 0
    ensures Elapsed(t, p) == t % p
  {
    if t >= p {
      ElapsedIs(t - p, p);
      PeriodEarlier(t, p);
    }
  }

  lemma PeriodEarlier(t: int, p: int)
    requires p > 0
    ensures (t - p) % p == t % p
  {
    var q, s := t / p, (t - p) / p;
    assert t == p * q + t % p && t - p == p * s + (t - p) % p;
    var x := q - s - 1;
    assert p * x == (t - p) % p - t % p;
    assert x >= 1 ==> p * x >= p;
    assert x <= -1 ==> p * x <= -p;
  }

  /** The time from t to the deadline of each task's last released job. */
  function TimesLeft(ts: seq<Task>, t: nat): (e: seq<int>)
    requires forall k :: 0 <= k < |ts| ==> ts[k].p > 0
    ensures |e| == |ts| && forall k: nat :: k < |e| ==> e[k] == ts[k].d - Elapsed(t, ts[k].p)
  {
    seq(|ts|, k requires 0 <= k < |ts| => ts[k].d - Elapsed(t, ts[k].p))
  }

  /** The check, with e the times to the deadlines. */
  predicate Fits(e: seq<int>, l: seq<int>, h: nat) {
    |l| <= |e| && forall k :: 0 <= k < |l| && l[k] > 0 ==> if k == h then l[k] <= e[k] else l[k] < e[k]
  }

  lemma RIsRemainder(k: int, p: int, r: int, now: int)
    requires p > 0 && -p < r <= 0 && r + now == k * p
    ensures now % p == -r
  {
    var q := now / p;
    assert now == p * q + now % p;
    assert r + now % p == (k - q) * p;
    var m := k - q;
    assert m >= 1 ==> m * p >= p;
    assert m <= -1 ==> m * p <= -p;
  }

  lemma PendingTask(ts: seq<Task>, x: Run, i: nat)
    requires TaskSet(ts) && Books(SCT, ts, x) && OnePending(x) && i < |ts| && Ready(x.tasks[i])
    ensures ts[i].p > 0 && 0 <= x.now
    ensures x.tasks[i].RemainingTime() == ts[i].d - Elapsed(x.now, ts[i].p)
  {
    assert ts[i].WellFormed() && TaskBooks(SCT, ts[i], x.tasks[i], x.done[i], x.now);
    RIsRemainder(x.done[i], ts[i].p, x.tasks[i].r, x.now);
    ElapsedIs(x.now, ts[i].p);
  }

  lemma PickIsHead(ts: seq<Task>, x: Run, h: nat)
    requires Books(SCT, ts, x) && Picks(Lefts(x), h)
    ensures !Idle(x.tasks) && h == Head(SCT, x.tasks) && h < |ts| && Ready(x.tasks[h])
  {
    LeftsAreNonNegative(ts, x);
    assert Ready(x.tasks[h]);
    HeadIsBest(SCT, x.tasks);
  }

  lemma FittingPasses(ts: seq<Task>, x: Run, h: nat, e: seq<int>)
    requires Books(SCT, ts, x) && Picks(Lefts(x), h) && Fits(e, Lefts(x), h)
    requires forall i :: 0 <= i < |x.tasks| && Ready(x.tasks[i]) && i < |e| ==> x.tasks[i].RemainingTime() == e[i]
    ensures Check(SCT, x.tasks)
  {
    PickIsHead(ts, x, h);
    LeftsAreNonNegative(ts, x);
    forall i: nat | i < |x.tasks| && Ready(x.tasks[i])
      ensures if i == Head(SCT, x.tasks) then x.tasks[i].CompletionTime() <= x.tasks[i].RemainingTime()
              else x.tasks[i].CompletionTime() < x.tasks[i].RemainingTime()
    {
      assert Lefts(x)[i] == x.tasks[i].CompletionTime();
    }
    CheckMeans(SCT, x.tasks);
  }

  lemma PassesOneMore(ts: seq<Task>, n: nat)
    requires Passes(SCT, ts, n) && Check(SCT, At(SCT, ts, n).tasks)
    ensures Passes(SCT, ts, n + 1)
  {
  }

  /** u is what is left a quantum after l if h runs, or nobody if h is not among them. */
  ghost predicate Ticks(ts: seq<Task>, t: nat, l: seq<int>, h: nat, u: seq<int>) {
    && |l| == |u| == |ts|
    && (forall i :: 0 <= i < |ts| ==> ts[i].p > 0)
    && forall i: nat :: i < |ts| ==>
         u[i] == (if i == h then l[i] - 1 else l[i]) + if (t + 1) % ts[i].p == 0 then ts[i].c else 0
  }

  lemma LeftIsWithin(ts: seq<Task>, n: nat, t: nat, l: seq<int>)
    requires TaskSet(ts) && Follows(ts, n, t, l)
    ensures |l| == |ts| && forall i :: 0 <= i < |ts| ==> 0 <= l[i] <= ts[i].c
  {
    var x := At(SCT, ts, n);
    forall i | 0 <= i < |ts|
      ensures 0 <= l[i] <= ts[i].c
    {
      TaskKeepsBooks(SCT, ts, n, i);
    }
  }

  lemma BusyTick(ts: seq<Task>, n: nat, t: nat, l: seq<int>, h: nat, u: seq<int>)
    requires TaskSet(ts) && Follows(ts, n, t, l) && Picks(l, h) && Ticks(ts, t, l, h, u) && Fits(TimesLeft(ts, t), l, h)
    ensures Follows(ts, n + 1, t + 1, u)
  {
    var x := At(SCT, ts, n);
    NextState(SCT, ts, n);
    hide At, TaskSet, Books, OnePending, Check, Idle, Head, Picks, Fits, Arrives, Grant;
    RunKeepsBooks(SCT, ts, n);
    StaysOnePending(SCT, ts, n);
    PickIsHead(ts, x, h);
    GrantTakesQuantum(x, h);
    forall i | 0 <= i < |x.tasks| && Ready(x.tasks[i]) && i < |ts|
      ensures x.tasks[i].RemainingTime() == TimesLeft(ts, x.now)[i]
    {
      PendingTask(ts, x, i);
    }
    FittingPasses(ts, x, h, TimesLeft(ts, x.now));
    PassesOneMore(ts, n);
    StaysOnePending(SCT, ts, n + 1);
    QuantumArrives(ts, x, h);
    ArrivalsAre(Lefts(x)[h := Lefts(x)[h] - 1], Arrivals(ts, t + 1), Lefts(At(SCT, ts, n + 1)), u);
    StepTakesTime(SCT, ts, n + 1);
  }

  lemma ArrivalsAre(v: seq<int>, a: seq<int>, u: seq<int>, w: seq<int>)
    requires Arrives(v, a, u) && |w| == |v| && forall i :: 0 <= i < |v| ==> w[i] == v[i] + a[i]
    ensures u == w
  {
  }

  // ---------- idle quanta ----------

  /** While nothing is ready, the releases of the next quantum are those of the end of the idle step. */
  lemma RestingTask(ts: seq<Task>, x: Run, t: nat, i: nat)
    requires TaskSet(ts) && Books(SCT, ts, x) && Idle(x.tasks) && i < |ts|
    requires x.now <= t < Rest(x).now
    ensures ts[i].p > 0
    ensures var a := if (t + 1) % ts[i].p == 0 then ts[i].c else 0;
            && (t + 1 < Rest(x).now ==> a == 0)
            && (t + 1 == Rest(x).now ==> Left(Rest(x).tasks[i]) == a)
  {
    var y := x.tasks[i];
    assert ts[i].WellFormed() && TaskBooks(SCT, ts[i], y, x.done[i], x.now) && !Ready(y);
    assert MinR(x.tasks) <= y.r;
    ReleaseIsZeroR(x.done[i], ts[i].p, y.r - (t + 1 - x.now), t + 1);
  }

  lemma IdleTick(ts: seq<Task>, n: nat, t: nat, l: seq<int>, u: seq<int>) returns (n': nat)
    requires TaskSet(ts) && Follows(ts, n, t, l) && (forall i :: 0 <= i < |l| ==> l[i] == 0)
    requires Ticks(ts, t, l, |ts|, u)
    ensures Follows(ts, n', t + 1, u)
  {
    var x := At(SCT, ts, n);
    NextState(SCT, ts, n);
    hide At, TaskSet, Books, Check, Rest, Left;
    RunKeepsBooks(SCT, ts, n);
    NothingLeft(ts, x);
    forall i: nat | i < |ts|
      ensures t + 1 < Rest(x).now ==> u[i] == l[i]
      ensures t + 1 == Rest(x).now ==> u[i] == Left(Rest(x).tasks[i])
    {
      RestingTask(ts, x, t, i);
    }
    if t + 1 < Rest(x).now {
      n' := n;
      assert u == l;
    } else {
      n' := n + 1;
      IdlePasses(SCT, x.tasks);
      PassesOneMore(ts, n);
      StepTakesTime(SCT, ts, n + 1);
      assert u == Lefts(At(SCT, ts, n + 1));
    }
  }

  lemma NothingLeft(ts: seq<Task>, x: Run)
    requires Books(SCT, ts, x) && forall i :: 0 <= i < |Lefts(x)| ==> Lefts(x)[i] == 0
    ensures Idle(x.tasks) && |ts| == |x.tasks| == |x.done|
  {
    LeftsAreNonNegative(ts, x);
  }

  lemma IdlePasses(alg: Alg, s: seq<Task>)
    requires Idle(s)
    ensures Check(alg, s)
  {
    CheckMeans(alg, s);
  }

  // ---------- verdicts ----------

  lemma StartLefts(ts: seq<Task>, l: seq<int>)
    requires |l| == |ts| && forall i :: 0 <= i < |ts| ==> l[i] == ts[i].c
    ensures l == Lefts(Start(ts))
  {
  }

  lemma FollowStarts(ts: seq<Task>, l: seq<int>)
    requires TaskSet(ts) && |l| == |ts| && forall i :: 0 <= i < |ts| ==> l[i] == ts[i].c
    ensures Follows(ts, 0, 0, l)
  {
    hide At, TaskSet;
    StartsAtZero(SCT, ts);
    StepTakesTime(SCT, ts, 0);
    StartLefts(ts, l);
  }

  /** Having got to a common multiple of the periods, and fitting there, is passing forever. */
  lemma FollowedToHyperperiod(ts: seq<Task>, n: nat, h: nat, l: seq<int>, k: nat)
    requires TaskSet(ts) && CommonMultiple(ts, h) && Follows(ts, n, h, l) && Picks(l, k)
    requires |l| == |ts| && (forall i :: 0 <= i < |ts| ==> ts[i].p > 0) && Fits(TimesLeft(ts, h), l, k)
    ensures PassesForever(SCT, ts)
  {
    hide At, TaskSet, CommonMultiple, Books, OnePending, Check, Idle, Head, Picks, Fits;
    var x := At(SCT, ts, n);
    RunKeepsBooks(SCT, ts, n);
    StaysOnePending(SCT, ts, n);
    PickIsHead(ts, x, k);
    NextState(SCT, ts, n);
    GrantTakesQuantum(x, k);
    forall i | 0 <= i < |x.tasks| && Ready(x.tasks[i]) && i < |ts|
      ensures x.tasks[i].RemainingTime() == TimesLeft(ts, x.now)[i]
    {
      PendingTask(ts, x, i);
    }
    FittingPasses(ts, x, k, TimesLeft(ts, x.now));
    forall m: nat | At(SCT, ts, m).now <= h
      ensures Check(SCT, At(SCT, ts, m).tasks)
    {
      if n < m {
        TimeIsMonotone(SCT, ts, n, m);
      }
    }
    HyperperiodDecides(SCT, ts, h);
  }
}
