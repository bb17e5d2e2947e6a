/**
 The scheduling engine on values: queue, schedulability check and step of fixt/fixt_algo.c,
 with the comparators and bookkeeping of the three algorithms under fixt/impl.
 The class Algo in Algorithm.dfy runs exactly these functions in place.
 */
module Engine {
  import opened Sorting
  import opened Tasks

  datatype Alg = RMA | EDF | SCT

  // ---------- the queue ----------

  /** What an algorithm orders its queue by; each comparator subtracts the right key from the left. */
  function Key(alg: Alg, t: Task): int {
    match alg
    case RMA => t.p
    case EDF => t.RemainingTime()
    case SCT => t.CompletionTime()
  }

  function Compare(alg: Alg, l: Task, r: Task): int {
    Key(alg, l) - Key(alg, r)
  }

  function KeyAt(alg: Alg, s: seq<Task>, i: nat): int {
    if i < |s| then Key(alg, s[i]) else 0
  }

  function Order(alg: Alg, s: seq<Task>): (nat, nat) -> bool {
    (i: nat, j: nat) => KeyAt(alg, s, i) <= KeyAt(alg, s, j)
  }

  predicate Ready(t: Task) {
    t.r <= 0
  }

  /** The ready tasks, from index i on, in registration order. */
  function ReadyFrom(s: seq<Task>, i: nat): (q: seq<nat>)
    ensures forall x: nat :: x in q <==> i <= x < |s| && Ready(s[x])
    ensures forall m, n :: 0 <= m < n < |q| ==> q[m] < q[n]
    decreases |s| - i
  {
    if i >= |s| then []
    else if Ready(s[i]) then
      var rest := ReadyFrom(s, i + 1);
      assert forall n :: 0 <= n < |rest| ==> rest[n] in rest;
      [i] + rest
    else ReadyFrom(s, i + 1)
  }

  /** al_queue after al_schedule: indices of the ready tasks, stably sorted. */
  function Queue(alg: Alg, s: seq<Task>): seq<nat> {
    StableSort(Order(alg, s), ReadyFrom(s, 0))
  }

  /** The schedulability check over a queue: the head may use all its time, the others must keep a spare quantum. */
  predicate QueueOk(s: seq<Task>, q: seq<nat>)
    requires forall m :: 0 <= m < |q| ==> q[m] < |s|
  {
    forall m :: 0 <= m < |q| ==>
      if m == 0 then s[q[m]].CompletionTime() <= s[q[m]].RemainingTime()
      else s[q[m]].CompletionTime() < s[q[m]].RemainingTime()
  }

  predicate Check(alg: Alg, s: seq<Task>) {
    QueueMembers(alg, s);
    QueueOk(s, Queue(alg, s))
  }

  lemma QueueMembers(alg: Alg, s: seq<Task>)
    ensures forall x: nat :: x in Queue(alg, s) <==> x < |s| && Ready(s[x])
    ensures forall m :: 0 <= m < |Queue(alg, s)| ==> Queue(alg, s)[m] < |s| && Ready(s[Queue(alg, s)[m]])
    ensures |Queue(alg, s)| == |ReadyFrom(s, 0)|
    ensures forall m, n :: 0 <= m < n < |Queue(alg, s)| ==> Queue(alg, s)[m] != Queue(alg, s)[n]
  {
    var u, q := ReadyFrom(s, 0), Queue(alg, s);
    SortIsPermutation(Order(alg, s), u);
    SameMembers(q, u);
    StaysDistinct(u, q);
    assert forall m :: 0 <= m < |q| ==> q[m] in q;
  }

  lemma StaysDistinct<T>(u: seq<T>, q: seq<T>)
    requires multiset(u) == multiset(q)
    requires forall m, n :: 0 <= m < n < |u| ==> u[m] != u[n]
    ensures forall m, n :: 0 <= m < n < |q| ==> q[m] != q[n]
  {
    forall m, n | 0 <= m < n < |q|
      ensures q[m] != q[n]
    {
      if q[m] == q[n] {
        Twice(q, m, n);
        var x := q[m];
        assert multiset(u)[x] >= 2;
        Once(u, x);
      }
    }
  }

  lemma Twice<T>(q: seq<T>, m: nat, n: nat)
    requires m < n < |q| && q[m] == q[n]
    ensures multiset(q)[q[m]] >= 2
  {
    assert q == q[..n] + q[n..];
    assert q[m] in q[..n];
    assert q[n] in q[n..];
  }

  lemma {:induction false} Once<T>(u: seq<T>, x: T)
    requires forall m, n :: 0 <= m < n < |u| ==> u[m] != u[n]
    ensures multiset(u)[x] <= 1
  {
    if u != [] {
      Once(u[1..], x);
      assert u == [u[0]] + u[1..];
      if u[0] == x {
        assert x !in u[1..];
      }
    }
  }

  predicate Idle(s: seq<Task>) {
    forall i :: 0 <= i < |s| ==> !Ready(s[i])
  }

  function Head(alg: Alg, s: seq<Task>): (h: nat)
    requires !Idle(s)
    ensures h < |s| && Ready(s[h])
  {
    QueueMembers(alg, s);
    ghost var i :| 0 <= i < |s| && Ready(s[i]);
    assert i in Queue(alg, s);
    assert Queue(alg, s)[0] in Queue(alg, s);
    Queue(alg, s)[0]
  }

  lemma OrderIsTotal(alg: Alg, s: seq<Task>, u: seq<nat>)
    ensures TotalOn(Order(alg, s), u)
  {
  }

  /** The queue is ordered by key, and by registration among equal keys. */
  lemma QueueIsInOrder(alg: Alg, s: seq<Task>, m: nat, n: nat)
    requires m < n < |Queue(alg, s)|
    ensures Queue(alg, s)[m] < |s| && Queue(alg, s)[n] < |s|
    ensures var i, j := Queue(alg, s)[m], Queue(alg, s)[n];
            Key(alg, s[i]) < Key(alg, s[j]) || (Key(alg, s[i]) == Key(alg, s[j]) && i < j)
  {
    QueueMembers(alg, s);
    OrderIsTotal(alg, s, ReadyFrom(s, 0));
    SortIsInOrder(Order(alg, s), ReadyFrom(s, 0));
  }

  /** The head is the first of the least keys among the ready indices. */
  lemma HeadIsFirst(alg: Alg, s: seq<Task>, j: nat)
    requires !Idle(s) && j < |s| && Ready(s[j])
    ensures KeyAt(alg, s, Head(alg, s)) <= KeyAt(alg, s, j)
    ensures j < Head(alg, s) ==> KeyAt(alg, s, Head(alg, s)) < KeyAt(alg, s, j)
  {
    var u, h := ReadyFrom(s, 0), Head(alg, s);
    assert j in u;
    var n :| 0 <= n < |u| && u[n] == j;
    hide Idle, Ready, KeyAt, StableSort;
    OrderIsTotal(alg, s, u);
    var m := SortHead(Order(alg, s), u);
    assert u[m] == h;
    assert Order(alg, s)(u[m], u[n]);
    assert n < m ==> !Order(alg, s)(u[n], u[m]);
  }

  /** No ready task is more urgent than the head, and none registered before it is as urgent. */
  lemma HeadIsBest(alg: Alg, s: seq<Task>)
    requires !Idle(s)
    ensures forall j :: 0 <= j < |s| && Ready(s[j]) ==> Key(alg, s[Head(alg, s)]) <= Key(alg, s[j])
    ensures forall j :: 0 <= j < Head(alg, s) && Ready(s[j]) ==> Key(alg, s[Head(alg, s)]) < Key(alg, s[j])
  {
    hide Idle, Head, Ready, Key;
    forall j | 0 <= j < |s| && Ready(s[j])
      ensures Key(alg, s[Head(alg, s)]) <= Key(alg, s[j])
      ensures j < Head(alg, s) ==> Key(alg, s[Head(alg, s)]) < Key(alg, s[j])
    {
      HeadIsFirst(alg, s, j);
    }
  }

  /** The check, task by task. */
  lemma CheckMeans(alg: Alg, s: seq<Task>)
    ensures Check(alg, s) <==> forall i :: 0 <= i < |s| && Ready(s[i]) ==>
                                 if i == Head(alg, s) then s[i].CompletionTime() <= s[i].RemainingTime()
                                 else s[i].CompletionTime() < s[i].RemainingTime()
  {
    QueueMembers(alg, s);
    var q := Queue(alg, s);
    if Check(alg, s) {
      forall i | 0 <= i < |s| && Ready(s[i])
        ensures if i == Head(alg, s) then s[i].CompletionTime() <= s[i].RemainingTime()
                else s[i].CompletionTime() < s[i].RemainingTime()
      {
        assert i in q;
        var m :| 0 <= m < |q| && q[m] == i;
      }
    }
    if forall i :: 0 <= i < |s| && Ready(s[i]) ==>
         if i == Head(alg, s) then s[i].CompletionTime() <= s[i].RemainingTime()
         else s[i].CompletionTime() < s[i].RemainingTime() {
      forall m | 0 <= m < |q|
        ensures if m == 0 then s[q[m]].CompletionTime() <= s[q[m]].RemainingTime()
                else s[q[m]].CompletionTime() < s[q[m]].RemainingTime()
      {
        assert q[m] in q;
      }
    }
  }

  // ---------- one step ----------

  /** Quanta that pass while the head runs: a whole job under RMA, EDF_PERIOD or SCT_PERIOD otherwise. */
  function Delta(alg: Alg, t: Task): int {
    if alg == RMA then t.c else 1
  }

  /** The running time that would be accumulated leaves nothing of the job. */
  predicate Finishes(alg: Alg, t: Task) {
    alg == RMA || t.c - (t.a + 1) <= 0
  }

  /** al_recalc on the head of the queue. */
  function Charged(alg: Alg, t: Task): Task {
    if alg == RMA then t.(r := t.p - t.c + t.r)
    else if Finishes(alg, t) then t.(r := t.p - 1 + t.r, a := 0)
    else t.(a := t.a + 1, r := t.r - 1)
  }

  function Wait(t: Task, delta: int): Task {
    t.(r := t.r - delta)
  }

  function RunHead(alg: Alg, s: seq<Task>, h: nat): (s': seq<Task>)
    requires h < |s|
    ensures |s'| == |s|
    ensures forall i :: 0 <= i < |s| ==> s'[i] == if i == h then Charged(alg, s[h]) else Wait(s[i], Delta(alg, s[h]))
  {
    seq(|s|, i requires 0 <= i < |s| => if i == h then Charged(alg, s[h]) else Wait(s[i], Delta(alg, s[h])))
  }

  /** fixt_algo_min_r: starts from INT_MAX. */
  function MinR(s: seq<Task>): (m: int)
    ensures m <= INT_MAX
    ensures forall i :: 0 <= i < |s| ==> m <= s[i].r
    ensures m == INT_MAX || exists i :: 0 <= i < |s| && s[i].r == m
  {
    if s == [] then INT_MAX
    else
      var m := MinR(s[..|s| - 1]);
      assert forall i :: 0 <= i < |s| - 1 ==> s[..|s| - 1][i] == s[i];
      Min(m, s[|s| - 1].r)
  }

  /** The start value never shows: no int exceeds it. */
  lemma MinRIsLeast(s: seq<Task>)
    requires forall i :: 0 <= i < |s| ==> s[i].r <= 0x7FFF_FFFF
    ensures if s == [] then MinR(s) == 0x7FFF_FFFF else exists i :: 0 <= i < |s| && s[i].r == MinR(s)
    ensures forall i :: 0 <= i < |s| ==> MinR(s) <= s[i].r
  {
    assert s != [] ==> MinR(s) <= s[0].r;
  }

  function Shift(s: seq<Task>, delta: int): (s': seq<Task>)
    ensures |s'| == |s|
    ensures forall i :: 0 <= i < |s| ==> s'[i] == Wait(s[i], delta)
  {
    seq(|s|, i requires 0 <= i < |s| => Wait(s[i], delta))
  }

  /** fixt_algo_run on the fields of the tasks. */
  function Step(alg: Alg, s: seq<Task>): (s': seq<Task>)
    ensures |s'| == |s|
  {
    if Idle(s) then Shift(s, MinR(s)) else RunHead(alg, s, Head(alg, s))
  }

  function Restart(ts: seq<Task>): (s: seq<Task>)
    ensures |s| == |ts|
    ensures forall i :: 0 <= i < |ts| ==> s[i] == ts[i].Reset()
  {
    seq(|ts|, i requires 0 <= i < |ts| => ts[i].Reset())
  }

  // ---------- runs ----------

  /** A run so far: the tasks, the jobs each has completed, the virtual time, and how much of it was idle. */
  datatype Run = Run(tasks: seq<Task>, done: seq<nat>, now: int, idle: int)

  function Start(ts: seq<Task>): Run {
    Run(Restart(ts), seq(|ts|, _ => 0), 0, 0)
  }

  /** Runs h, whichever ready task that is. */
  function Grant(alg: Alg, x: Run, h: nat): Run
    requires h < |x.tasks| == |x.done|
  {
    Run(RunHead(alg, x.tasks, h),
        if Finishes(alg, x.tasks[h]) then x.done[h := x.done[h] + 1] else x.done,
        x.now + Delta(alg, x.tasks[h]),
        x.idle)
  }

  function Rest(x: Run): Run {
    Run(Shift(x.tasks, MinR(x.tasks)), x.done, x.now + MinR(x.tasks), x.idle + MinR(x.tasks))
  }

  function Advance(alg: Alg, x: Run): Run
    requires |x.tasks| == |x.done|
  {
    if Idle(x.tasks) then Rest(x) else Grant(alg, x, Head(alg, x.tasks))
  }

  /** The state after n steps, whatever the checks say: the unguarded run. */
  function At(alg: Alg, ts: seq<Task>, n: nat): (x: Run)
    ensures |x.tasks| == |x.done| == |ts|
  {
    if n == 0 then Start(ts) else Advance(alg, At(alg, ts, n - 1))
  }

  /** The run does what the engine's step does. */
  lemma RunFollowsStep(alg: Alg, ts: seq<Task>, n: nat)
    ensures At(alg, ts, n + 1).tasks == Step(alg, At(alg, ts, n).tasks)
  {
  }

  /** The first n checks pass. */
  ghost predicate Passes(alg: Alg, ts: seq<Task>, n: nat) {
    forall m :: 0 <= m < n ==> Check(alg, At(alg, ts, m).tasks)
  }

  /** The checks made up to time h pass. */
  ghost predicate PassesUntil(alg: Alg, ts: seq<Task>, h: int) {
    forall n: nat :: At(alg, ts, n).now <= h ==> Check(alg, At(alg, ts, n).tasks)
  }

  ghost predicate PassesForever(alg: Alg, ts: seq<Task>) {
    forall m: nat :: Check(alg, At(alg, ts, m).tasks)
  }
}
