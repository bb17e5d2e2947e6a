/**
 RMA for every task, not only the top one: how long a ready job can wait before it starts, when each job
 runs to its end, and a test by which a set passes forever.
 */
module Delays {
  import opened Sums
  import opened Tasks
  import opened Engine
  import opened Bookkeeping
  import opened Feasibility

  /** RMA prefers j to i. */
  predicate Higher(ts: seq<Task>, j: nat, i: nat) {
    j < |ts| && i < |ts| && (ts[j].p < ts[i].p || (ts[j].p == ts[i].p && j < i))
  }

  /** Jobs released at or before time l: those due by then, were they due at once. */
  function ReleasedBy(t: Task, l: int): int
    requires t.p > 0
  {
    JobsDue(t.(d := 0), l)
  }

  /** What each preferred task releases within w quanta after a common release. */
  function Interferences(ts: seq<Task>, i: nat, w: int): (s: seq<int>)
    requires forall j :: 0 <= j < |ts| ==> ts[j].p > 0
    ensures |s| == |ts|
    ensures forall j: nat :: j < |ts| ==> s[j] == if Higher(ts, j, i) then ReleasedBy(ts[j], w) * ts[j].c else 0
  {
    seq(|ts|, j requires 0 <= j < |ts| => if Higher(ts, j, i) then ReleasedBy(ts[j], w) * ts[j].c else 0)
  }

  function Interference(ts: seq<Task>, i: nat, w: int): int
    requires forall j :: 0 <= j < |ts| ==> ts[j].p > 0
  {
    Sum(Interferences(ts, i, w))
  }

  /** Any job that i has to let finish, its own last one included, and the preferred work released meanwhile are over within w. */
  predicate DelayFits(ts: seq<Task>, i: nat, w: nat) {
    && i < |ts|
    && (forall j :: 0 <= j < |ts| ==> ts[j].p > 0)
    && w < ts[i].p
    && forall j: nat :: j < |ts| && !Higher(ts, j, i) ==> ts[j].c - 1 + Interference(ts, i, w) <= w
  }

  lemma ReleasedByMeans(t: Task, l: int, k: nat)
    requires t.p > 0
    ensures k < ReleasedBy(t, l) <==> k * t.p <= l
    ensures ReleasedBy(t, l) >= 0
  {
    JobsDueMeans(t.(d := 0), l, k);
    JobsFromLater(t.(d := 0), 0, 0, l);
  }

  /** Releases after a and up to l are no more than those of a fresh start at a + 1. */
  lemma ReleasedBetween(t: Task, a: int, l: int, w: int)
    requires t.p > 0 && l - a - 1 <= w && -1 <= a
    ensures ReleasedBy(t, l) - ReleasedBy(t, a) <= ReleasedBy(t, w)
  {
    var m := ReleasedBy(t, l) - ReleasedBy(t, a);
    ReleasedByMeans(t, a, 0);
    ReleasedByMeans(t, a, ReleasedBy(t, a));
    JobsFromLater(t.(d := 0), ReleasedBy(t, a), a + 1, l);
    var n := ReleasedBy(t, l - a - 1);
    if n > 0 {
      ReleasedByMeans(t, l - a - 1, n - 1);
      ReleasedByMeans(t, w, n - 1);
    } else {
      ReleasedByMeans(t, w, 0);
    }
  }

  // ---------- the window ----------

  /** The preferred work executed, in whole jobs, of the jobs released after a. */
  function Since(ts: seq<Task>, x: Run, i: nat, a: int): (s: seq<int>)
    requires |x.done| == |ts| && forall j :: 0 <= j < |ts| ==> ts[j].p > 0
    ensures |s| == |ts|
    ensures forall j: nat :: j < |ts| ==>
              s[j] == if Higher(ts, j, i) then (x.done[j] - ReleasedBy(ts[j], a)) * ts[j].c else 0
  {
    seq(|ts|, j requires 0 <= j < |ts| =>
      if Higher(ts, j, i) then (x.done[j] - ReleasedBy(ts[j], a)) * ts[j].c else 0)
  }

  /**
   Since a, a time before the release of i's current job, the processor has been busy with one job that
   i had to let finish and with preferred jobs released after a, and that is less than w ago.
   */
  ghost predicate Window(ts: seq<Task>, x: Run, i: nat, w: nat, a: int)
    requires DelayFits(ts, i, w) && |x.done| == |ts|
  {
    && -1 <= a < x.now && x.now - a - 1 <= w
    && x.now - a - 1 <= w - Interference(ts, i, w) + Sum(Since(ts, x, i, a))
    && a < x.done[i] * ts[i].p
  }

  lemma InterferenceIsNatural(ts: seq<Task>, i: nat, w: nat)
    requires TaskSet(ts) && DelayFits(ts, i, w)
    ensures 0 <= Interference(ts, i, w)
  {
    forall j | 0 <= j < |ts|
      ensures 0 <= Interferences(ts, i, w)[j]
    {
      assert ts[j].WellFormed();
      ReleasedByMeans(ts[j], w, 0);
      Scaled(0, ReleasedBy(ts[j], w), ts[j].c);
    }
    SumAtLeast(Interferences(ts, i, w));
  }

  lemma StartOpensWindow(ts: seq<Task>, i: nat, w: nat)
    requires TaskSet(ts) && DelayFits(ts, i, w)
    ensures Window(ts, Start(ts), i, w, -1)
  {
    InterferenceIsNatural(ts, i, w);
    SumZero(Since(ts, Start(ts), i, -1));
    assert ts[i].WellFormed();
    assert !Higher(ts, i, i);
  }

  /** A window opens at a if every preferred task, and i, has its next release after a. */
  lemma WindowOpens(ts: seq<Task>, y: Run, i: nat, w: nat, a: int, j: nat)
    requires TaskSet(ts) && DelayFits(ts, i, w) && |y.done| == |ts|
    requires j < |ts| && !Higher(ts, j, i) && -1 <= a < y.now <= a + ts[j].c
    requires forall k: nat :: k < |ts| && (k == i || Higher(ts, k, i)) ==> a < y.done[k] * ts[k].p
    ensures Window(ts, y, i, w, a)
  {
    InterferenceIsNatural(ts, i, w);
    forall k: nat | k < |ts|
      ensures 0 <= Since(ts, y, i, a)[k]
    {
      if Higher(ts, k, i) {
        ReleasedByMeans(ts[k], a, y.done[k]);
        Scaled(0, y.done[k] - ReleasedBy(ts[k], a), ts[k].c);
      }
    }
    SumAtLeast(Since(ts, y, i, a));
  }

  /** When the head is not preferred to i, no preferred task is ready, nor i itself unless it is the head. */
  lemma PreferredAreWaiting(ts: seq<Task>, x: Run, i: nat, k: nat)
    requires Books(RMA, ts, x) && !Idle(x.tasks) && i < |ts| && k < |ts|
    requires !Higher(ts, Head(RMA, x.tasks), i) && (k == i || Higher(ts, k, i)) && k != Head(RMA, x.tasks)
    ensures !Ready(x.tasks[k])
  {
    var h := Head(RMA, x.tasks);
    HeadIsBest(RMA, x.tasks);
    assert TaskBooks(RMA, ts[k], x.tasks[k], x.done[k], x.now);
    assert TaskBooks(RMA, ts[h], x.tasks[h], x.done[h], x.now);
  }

  lemma RestOpensWindow(ts: seq<Task>, x: Run, i: nat, w: nat)
    requires TaskSet(ts) && Books(RMA, ts, x) && DelayFits(ts, i, w) && Idle(x.tasks)
    ensures Window(ts, Rest(x), i, w, Rest(x).now - 1)
  {
    var y := Rest(x);
    MinRIsRelease(RMA, ts, x);
    forall k: nat | k < |ts|
      ensures y.now - 1 < y.done[k] * ts[k].p
    {
      assert TaskBooks(RMA, ts[k], x.tasks[k], x.done[k], x.now);
    }
    assert ts[i].WellFormed() && !Higher(ts, i, i);
    hide Books, TaskSet, Window, DelayFits, Idle, Higher;
    WindowOpens(ts, y, i, w, y.now - 1, i);
  }

  lemma NextReleaseIsLater(ts: seq<Task>, x: Run, i: nat, w: nat, a: int, k: nat)
    requires TaskSet(ts) && Books(RMA, ts, x) && DelayFits(ts, i, w) && Window(ts, x, i, w, a)
    requires !Idle(x.tasks) && !Higher(ts, Head(RMA, x.tasks), i)
    requires k < |ts| && (k == i || Higher(ts, k, i))
    ensures x.now < Grant(RMA, x, Head(RMA, x.tasks)).done[k] * ts[k].p
  {
    assert ts[k].WellFormed() && TaskBooks(RMA, ts[k], x.tasks[k], x.done[k], x.now);
    hide Idle, Head, TaskSet, Books;
    if k == Head(RMA, x.tasks) {
      assert (x.done[k] + 1) * ts[k].p == x.done[k] * ts[k].p + ts[k].p;
    } else {
      PreferredAreWaiting(ts, x, i, k);
    }
  }

  /** A job that i had to let finish opens a new window at its start. */
  lemma BlockerOpensWindow(ts: seq<Task>, x: Run, i: nat, w: nat, a: int)
    requires TaskSet(ts) && Books(RMA, ts, x) && DelayFits(ts, i, w) && Window(ts, x, i, w, a)
    requires !Idle(x.tasks) && !Higher(ts, Head(RMA, x.tasks), i)
    ensures Window(ts, Grant(RMA, x, Head(RMA, x.tasks)), i, w, x.now)
  {
    var h := Head(RMA, x.tasks);
    var y := Grant(RMA, x, h);
    assert -1 <= x.now && |x.done| == |ts|;
    RunsWholeJob(ts, x);
    hide TaskSet, Books, DelayFits, Window, Idle, Head, Higher, Grant;
    forall k: nat | k < |ts| && (k == i || Higher(ts, k, i))
      ensures x.now < y.done[k] * ts[k].p
    {
      NextReleaseIsLater(ts, x, i, w, a, k);
    }
    WindowOpens(ts, y, i, w, x.now, h);
  }

  /** Preferred jobs completed by the end of a step were released by its start, so within w after the opening. */
  lemma CompletedWereReleased(ts: seq<Task>, x: Run, j: nat, a: int, w: int, run: bool)
    requires TaskSet(ts) && Books(RMA, ts, x) && j < |ts| && (run ==> Ready(x.tasks[j]))
    requires -1 <= a && x.now - a - 1 <= w
    ensures ts[j].p > 0
    ensures ((if run then x.done[j] + 1 else x.done[j]) - ReleasedBy(ts[j], a)) * ts[j].c <= ReleasedBy(ts[j], w) * ts[j].c
  {
    var t, k, n := ts[j], x.done[j], if run then x.done[j] + 1 else x.done[j];
    assert t.WellFormed() && TaskBooks(RMA, t, x.tasks[j], k, x.now);
    if n > 0 {
      assert (n - 1) * t.p <= x.now by {
        assert (k - 1) * t.p == k * t.p - t.p;
      }
      ReleasedByMeans(t, x.now, n - 1);
    } else {
      ReleasedByMeans(t, x.now, 0);
    }
    ReleasedBetween(t, a, x.now, w);
    Scaled(n - ReleasedBy(t, a), ReleasedBy(t, w), t.c);
  }

  lemma SinceGrows(ts: seq<Task>, x: Run, y: Run, i: nat, a: int, h: nat)
    requires |x.done| == |ts| && Higher(ts, h, i) && y.done == x.done[h := x.done[h] + 1]
    requires forall j :: 0 <= j < |ts| ==> ts[j].p > 0
    ensures Sum(Since(ts, y, i, a)) == Sum(Since(ts, x, i, a)) + ts[h].c
  {
    var v := Since(ts, x, i, a);
    OneMoreJob(x.done[h], ReleasedBy(ts[h], a), ts[h].c);
    hide Higher, ReleasedBy;
    assert Since(ts, y, i, a) == v[h := v[h] + ts[h].c];
    SumUpdate(v, h, v[h] + ts[h].c);
  }

  lemma SinceFits(ts: seq<Task>, x: Run, y: Run, i: nat, w: nat, a: int, h: nat)
    requires TaskSet(ts) && Books(RMA, ts, x) && DelayFits(ts, i, w)
    requires -1 <= a && x.now - a - 1 <= w
    requires h < |ts| == |x.done| && Ready(x.tasks[h]) && y.done == x.done[h := x.done[h] + 1]
    ensures Sum(Since(ts, y, i, a)) <= Interference(ts, i, w)
  {
    hide Books, TaskSet, Higher, ReleasedBy, Ready;
    forall j: nat | j < |ts|
      ensures Since(ts, y, i, a)[j] <= Interferences(ts, i, w)[j]
    {
      CompletedWereReleased(ts, x, j, a, w, j == h);
    }
    SumLe(Since(ts, y, i, a), Interferences(ts, i, w));
  }

  lemma RunsWholeJob(ts: seq<Task>, x: Run)
    requires TaskSet(ts) && Books(RMA, ts, x) && !Idle(x.tasks)
    ensures var h := Head(RMA, x.tasks);
            && h < |ts| && Ready(x.tasks[h]) && ts[h].c > 0
            && Grant(RMA, x, h).done == x.done[h := x.done[h] + 1] && Grant(RMA, x, h).now == x.now + ts[h].c
  {
    var h := Head(RMA, x.tasks);
    assert ts[h].WellFormed() && TaskBooks(RMA, ts[h], x.tasks[h], x.done[h], x.now);
  }

  /** A preferred job goes into the window it was released in. */
  lemma PreferredKeepsWindow(ts: seq<Task>, x: Run, i: nat, w: nat, a: int)
    requires TaskSet(ts) && Books(RMA, ts, x) && DelayFits(ts, i, w) && Window(ts, x, i, w, a)
    requires !Idle(x.tasks) && Higher(ts, Head(RMA, x.tasks), i)
    ensures Grant(RMA, x, Head(RMA, x.tasks)).now > x.now
    ensures Window(ts, Grant(RMA, x, Head(RMA, x.tasks)), i, w, a)
  {
    var h := Head(RMA, x.tasks);
    var y := Grant(RMA, x, h);
    RunsWholeJob(ts, x);
    assert i != h;
    hide Head, Idle, Higher, Grant, Books, TaskSet, Interference, Since;
    SinceGrows(ts, x, y, i, a, h);
    SinceFits(ts, x, y, i, w, a, h);
  }

  lemma OneMoreJob(n: int, m: int, c: int)
    ensures (n + 1 - m) * c == (n - m) * c + c
  {
  }

  lemma WindowStep(ts: seq<Task>, x: Run, i: nat, w: nat, a: int) returns (a': int)
    requires TaskSet(ts) && Books(RMA, ts, x) && DelayFits(ts, i, w) && Window(ts, x, i, w, a)
    ensures Window(ts, Advance(RMA, x), i, w, a')
  {
    hide Window, Books, DelayFits, TaskSet, Grant, Rest, Idle, Head, Higher;
    if Idle(x.tasks) {
      a' := Rest(x).now - 1;
      RestOpensWindow(ts, x, i, w);
    } else if Higher(ts, Head(RMA, x.tasks), i) {
      a' := a;
      PreferredKeepsWindow(ts, x, i, w, a);
    } else {
      a' := x.now;
      BlockerOpensWindow(ts, x, i, w, a);
    }
  }

  lemma {:induction false} WindowAt(ts: seq<Task>, n: nat, i: nat, w: nat) returns (a: int)
    requires TaskSet(ts) && DelayFits(ts, i, w)
    ensures Window(ts, At(RMA, ts, n), i, w, a)
  {
    hide Window, Advance, TaskSet, DelayFits, Books;
    if n == 0 {
      a := -1;
      StartsAtZero(RMA, ts);
      StartOpensWindow(ts, i, w);
    } else {
      var a0 := WindowAt(ts, n - 1, i, w);
      RunKeepsBooks(RMA, ts, n - 1);
      NextState(RMA, ts, n - 1);
      a := WindowStep(ts, At(RMA, ts, n - 1), i, w, a0);
    }
  }

  // ---------- main results ----------

  /** Under RMA no job of i is kept waiting for longer than w. */
  lemma RmaDelay(ts: seq<Task>, n: nat, i: nat, w: nat)
    requires TaskSet(ts) && DelayFits(ts, i, w) && Ready(At(RMA, ts, n).tasks[i])
    ensures var x := At(RMA, ts, n);
            if i == Head(RMA, x.tasks) then x.now <= x.done[i] * ts[i].p + w else x.now < x.done[i] * ts[i].p + w
  {
    var x := At(RMA, ts, n);
    var a := WindowAt(ts, n, i, w);
    RunKeepsBooks(RMA, ts, n);
    hide At, Idle, Head, TaskSet;
    assert !Idle(x.tasks) by { SomeReady(x.tasks, i); }
    if i != Head(RMA, x.tasks) {
      assert Higher(ts, Head(RMA, x.tasks), i) by {
        if !Higher(ts, Head(RMA, x.tasks), i) {
          PreferredAreWaiting(ts, x, i, i);
        }
      }
      PreferredKeepsWindow(ts, x, i, w, a);
    }
  }

  lemma SomeReady(s: seq<Task>, i: nat)
    requires i < |s| && Ready(s[i])
    ensures !Idle(s)
  {
  }

  /** The delay of task i, within w, leaves it the time for its job. */
  predicate MeetsByDelay(ts: seq<Task>, i: nat, w: nat) {
    DelayFits(ts, i, w) && w + ts[i].c <= ts[i].d
  }

  ghost predicate InTime(ts: seq<Task>, i: nat) {
    exists w: nat :: MeetsByDelay(ts, i, w)
  }

  /** A test for RMA: if each task's delay leaves it the time for its job, the set passes forever. */
  lemma RmaPassesByDelay(ts: seq<Task>)
    requires TaskSet(ts)
    requires forall i: nat :: i < |ts| ==> InTime(ts, i)
    ensures PassesForever(RMA, ts)
  {
    forall n: nat
      ensures Check(RMA, At(RMA, ts, n).tasks)
    {
      var s := At(RMA, ts, n).tasks;
      hide At, Check, Head, DelayFits, TaskSet;
      forall i: nat | i < |s| && Ready(s[i])
        ensures if i == Head(RMA, s) then s[i].CompletionTime() <= s[i].RemainingTime()
                else s[i].CompletionTime() < s[i].RemainingTime()
      {
        assert InTime(ts, i);
        var w: nat :| MeetsByDelay(ts, i, w);
        RmaDelay(ts, n, i, w);
        TaskKeepsBooks(RMA, ts, n, i);
      }
      CheckMeans(RMA, s);
    }
  }
}
