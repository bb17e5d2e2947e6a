/**
 EDF against all schedules whatsoever: a schedule says, quantum by quantum, which task runs, and EDF passes
 forever exactly when some schedule gives every job its quanta between its release and its deadline.
 */
module Optimality {
  import opened Sums
  import opened Tasks
  import opened Engine
  import opened Bookkeeping
  import opened Deadlines
  import opened Feasibility

  datatype Slot = Free | For(i: nat)

  type Schedule = nat -> Slot

  /** The quanta task i has been given before time t. */
  function Given(f: Schedule, i: nat, t: int): nat {
    if t <= 0 then 0 else Given(f, i, t - 1) + if f(t - 1) == For(i) then 1 else 0
  }

  /** Job k of a task is not begun before its release, and is complete when it is due. */
  ghost predicate Serves(f: Schedule, i: nat, t: Task, k: nat) {
    && Given(f, i, k * t.p) <= k * t.c
    && (k + 1) * t.c <= Given(f, i, Due(t, k))
  }

  ghost predicate Schedules(f: Schedule, ts: seq<Task>) {
    forall i: nat, k: nat | i < |ts| :: Serves(f, i, ts[i], k)
  }

  lemma {:induction false} GivenIsMonotone(f: Schedule, i: nat, s: int, t: int)
    requires s <= t
    ensures Given(f, i, s) <= Given(f, i, t)
    decreases t - s
  {
    if s < t {
      GivenIsMonotone(f, i, s, t - 1);
    }
  }

  // ---------- any schedule ----------

  function Givens(f: Schedule, n: nat, t: int): (w: seq<int>)
    ensures |w| == n && forall i: nat :: i < n ==> w[i] == Given(f, i, t)
  {
    seq(n, i requires 0 <= i < n => Given(f, i, t))
  }

  /** There is one processor. */
  lemma {:induction false} GivenWithinTime(f: Schedule, n: nat, t: nat)
    ensures Sum(Givens(f, n, t)) <= t
  {
    if t == 0 {
      SumZero(Givens(f, n, t));
    } else {
      var v, w := Givens(f, n, t - 1), Givens(f, n, t);
      GivenWithinTime(f, n, t - 1);
      match f(t - 1)
      case Free => assert w == v;
      case For(i) =>
        if i < n {
          assert w == v[i := v[i] + 1];
          SumUpdate(v, i, v[i] + 1);
        } else {
          assert w == v;
        }
    }
  }

  lemma DueIsGiven(f: Schedule, i: nat, t: Task, l: nat)
    requires t.WellFormed() && forall k: nat :: Serves(f, i, t, k)
    ensures JobsDue(t, l) * t.c <= Given(f, i, l)
  {
    var m := JobsDue(t, l);
    if m > 0 {
      assert Serves(f, i, t, m - 1);
      JobsDueMeans(t, l, m - 1);
      GivenIsMonotone(f, i, Due(t, m - 1), l);
    } else {
      Scaled(m, 0, t.c);
    }
  }

  /** A schedule, however made and with whatever foresight, leaves no interval with more demand than it has quanta. */
  lemma ScheduleFitsDemand(f: Schedule, ts: seq<Task>, l: nat)
    requires TaskSet(ts) && Schedules(f, ts)
    ensures Demand(ts, l) <= l
  {
    hide JobsDue, Given;
    forall i: nat | i < |ts|
      ensures Demands(ts, l)[i] <= Givens(f, |ts|, l)[i]
    {
      assert forall k: nat :: Serves(f, i, ts[i], k);
      DueIsGiven(f, i, ts[i], l);
    }
    SumLe(Demands(ts, l), Givens(f, |ts|, l));
    GivenWithinTime(f, |ts|, l);
  }

  // ---------- the schedule of EDF ----------

  ghost predicate Around(ts: seq<Task>, n: nat, t: int) {
    At(EDF, ts, n).now <= t < At(EDF, ts, n + 1).now
  }

  /** Who has the quantum during step n of the run. */
  ghost function Holder(ts: seq<Task>, n: nat): Slot {
    var s := At(EDF, ts, n).tasks;
    if Idle(s) then Free else For(Head(EDF, s))
  }

  lemma AroundExists(ts: seq<Task>, t: nat)
    requires TaskSet(ts)
    ensures exists n: nat :: Around(ts, n, t)
  {
    var n := StepAt(EDF, ts, t);
    assert Around(ts, n, t);
  }

  ghost function EdfSlot(ts: seq<Task>, t: nat): Slot {
    if TaskSet(ts) then
      AroundExists(ts, t);
      var n: nat :| Around(ts, n, t);
      Holder(ts, n)
    else Free
  }

  ghost function EdfSchedule(ts: seq<Task>): Schedule {
    (t: nat) => EdfSlot(ts, t)
  }

  lemma AroundIsUnique(ts: seq<Task>, m: nat, n: nat, t: nat)
    requires TaskSet(ts) && Around(ts, m, t) && Around(ts, n, t)
    ensures m == n
  {
    hide At, TaskSet;
    if m + 1 < n {
      TimeIsMonotone(EDF, ts, m + 1, n);
    } else if n + 1 < m {
      TimeIsMonotone(EDF, ts, n + 1, m);
    }
  }

  lemma SlotIsHolder(ts: seq<Task>, n: nat, t: nat)
    requires TaskSet(ts) && Around(ts, n, t)
    ensures EdfSchedule(ts)(t) == Holder(ts, n)
  {
    hide Around, Holder, TaskSet;
    AroundExists(ts, t);
    var m: nat :| Around(ts, m, t) && EdfSlot(ts, t) == Holder(ts, m);
    AroundIsUnique(ts, m, n, t);
  }

  /** Within a step, up to time t of it, only its holder is given anything. */
  lemma {:induction false} GivenInStep(ts: seq<Task>, n: nat, i: nat, t: int)
    requires TaskSet(ts) && 0 <= At(EDF, ts, n).now <= t <= At(EDF, ts, n + 1).now
    ensures var x := At(EDF, ts, n);
            Given(EdfSchedule(ts), i, t) ==
            Given(EdfSchedule(ts), i, x.now) + if Holder(ts, n) == For(i) then t - x.now else 0
    decreases t
  {
    hide At, Holder, TaskSet, EdfSchedule;
    if t > At(EDF, ts, n).now {
      GivenInStep(ts, n, i, t - 1);
      assert Around(ts, n, t - 1);
      SlotIsHolder(ts, n, t - 1);
    }
  }

  lemma GrantedWork(ts: seq<Task>, x: Run, h: nat, i: nat)
    requires TaskSet(ts) && Books(EDF, ts, x) && h < |ts| && i < |ts| && Ready(x.tasks[h])
    ensures var y := Grant(EDF, x, h);
            && y.now == x.now + 1
            && Work(y)[i] == Work(x)[i] + if i == h then 1 else 0
  {
    hide Ready;
    ChargedBooks(EDF, ts[h], x.tasks[h], x.done[h], x.now);
  }

  /** What one step adds to the work of a task. */
  lemma StepWork(ts: seq<Task>, n: nat, i: nat)
    requires TaskSet(ts) && i < |ts|
    ensures var x, y := At(EDF, ts, n), At(EDF, ts, n + 1);
            && (!Idle(x.tasks) ==> y.now == x.now + 1)
            && Work(y)[i] == Work(x)[i] + if Holder(ts, n) == For(i) then y.now - x.now else 0
  {
    var x := At(EDF, ts, n);
    NextState(EDF, ts, n);
    RunKeepsBooks(EDF, ts, n);
    hide At, TaskSet, Books, Idle, Head, Grant;
    if !Idle(x.tasks) {
      GrantedWork(ts, x, Head(EDF, x.tasks), i);
    }
  }

  /** The EDF schedule gives each task what the run charges it. */
  lemma {:induction false} GivenIsWork(ts: seq<Task>, n: nat, i: nat)
    requires TaskSet(ts) && i < |ts|
    ensures At(EDF, ts, n).now >= 0
    ensures Given(EdfSchedule(ts), i, At(EDF, ts, n).now) == Work(At(EDF, ts, n))[i]
  {
    hide Holder, TaskSet, EdfSchedule, Books, Advance;
    if n == 0 {
      StartsAtZero(EDF, ts);
    } else {
      hide At;
      GivenIsWork(ts, n - 1, i);
      StepTakesTime(EDF, ts, n - 1);
      GivenInStep(ts, n - 1, i, At(EDF, ts, n).now);
      StepWork(ts, n - 1, i);
    }
  }

  lemma FewJobsBegun(t: Task, n: nat, now: int, k: nat, at: int)
    requires 0 <= t.a < t.c && t.r < t.p && (t.a > 0 ==> t.r < 0) && t.r + now == n * t.p
    requires 0 < t.p && now <= at == k * t.p
    ensures n * t.c + t.a <= k * t.c
  {
    assert (k + 1) * t.p == k * t.p + t.p && (n + 1) * t.c == n * t.c + t.c;
    if n > k {
      Scaled(k + 1, n, t.p);
    } else if n < k {
      Scaled(n + 1, k, t.c);
    }
  }

  lemma NotBeforeRelease(ts: seq<Task>, i: nat, k: nat)
    requires TaskSet(ts) && i < |ts|
    ensures Given(EdfSchedule(ts), i, k * ts[i].p) <= k * ts[i].c
  {
    assert ts[i].WellFormed();
    var t := k * ts[i].p;
    Scaled(0, k, ts[i].p);
    hide At, TaskSet, Books, EdfSchedule, Given;
    var n := StepAt(EDF, ts, t);
    var x := At(EDF, ts, n);
    GivenIsWork(ts, n, i);
    GivenInStep(ts, n, i, t);
    StepWork(ts, n, i);
    TaskKeepsBooks(EDF, ts, n, i);
    FewJobsBegun(x.tasks[i], x.done[i], x.now, k, t);
  }

  lemma ByDeadline(ts: seq<Task>, i: nat, k: nat)
    requires TaskSet(ts) && i < |ts| && MeetsDeadline(EDF, ts, i, k)
    ensures (k + 1) * ts[i].c <= Given(EdfSchedule(ts), i, Due(ts[i], k))
  {
    hide At, TaskSet, Books, EdfSchedule, Given;
    var m: nat :| OnTime(EDF, ts, m, i, k);
    GivenIsWork(ts, m + 1, i);
    TaskKeepsBooks(EDF, ts, m + 1, i);
    GivenIsMonotone(EdfSchedule(ts), i, At(EDF, ts, m + 1).now, Due(ts[i], k));
  }

  lemma EdfSchedules(ts: seq<Task>)
    requires TaskSet(ts) && PassesForever(EDF, ts)
    ensures Schedules(EdfSchedule(ts), ts)
  {
    hide At, TaskSet, EdfSchedule, Given, MeetsDeadline, PassesForever;
    CheckIsExact(EDF, ts);
    forall i: nat, k: nat | i < |ts|
      ensures Serves(EdfSchedule(ts), i, ts[i], k)
    {
      NotBeforeRelease(ts, i, k);
      assert MeetsDeadline(EDF, ts, i, k);
      ByDeadline(ts, i, k);
    }
  }

  /** EDF passes forever if and only if the set can be scheduled at all. */
  lemma EdfIsOptimalOfAll(ts: seq<Task>)
    requires TaskSet(ts)
    ensures PassesForever(EDF, ts) <==> exists f: Schedule :: Schedules(f, ts)
  {
    hide Schedules, PassesForever;
    if PassesForever(EDF, ts) {
      EdfSchedules(ts);
    }
    if f: Schedule :| Schedules(f, ts) {
      forall l: nat
        ensures Demand(ts, l) <= l
      {
        ScheduleFitsDemand(f, ts, l);
      }
      EdfIsExact(ts);
    }
  }
}
