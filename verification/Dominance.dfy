/** Throughput dominance over whole runs: SCT against every work-conserving schedule, EDF and RMA. */
module Dominance {
  import opened Sums
  import opened Tasks
  import opened Engine
  import opened Bookkeeping
  import opened Throughput

  // ---------- any schedule that never idles while a task is ready ----------

  /** One step of such a schedule: a quantum for some ready task, or a rest until the next release. */
  ghost predicate Conserves(x: Run, y: Run)
    requires |x.tasks| == |x.done|
  {
    if Idle(x.tasks) then y == Rest(x)
    else exists j: nat :: j < |x.tasks| && Ready(x.tasks[j]) && y == Grant(SCT, x, j)
  }

  ghost predicate WorkConserving(ts: seq<Task>, tr: seq<Run>) {
    && tr != [] && tr[0] == Start(ts)
    && (forall m :: 0 <= m < |tr| ==> |tr[m].tasks| == |tr[m].done| && OnePending(tr[m]))
    && forall m :: 0 <= m < |tr| - 1 ==> Conserves(tr[m], tr[m + 1])
  }

  lemma LaxIsOnePending(alg: Alg, ts: seq<Task>, x: Run)
    requires TaskSet(ts) && Books(alg, ts, x) && Lax(x.tasks)
    ensures OnePending(x)
  {
    forall i | 0 <= i < |ts|
      ensures -x.tasks[i].p < x.tasks[i].r
    {
      assert ts[i].WellFormed() && TaskBooks(alg, ts[i], x.tasks[i], x.done[i], x.now);
    }
  }

  lemma StaysOnePending(alg: Alg, ts: seq<Task>, n: nat)
    requires TaskSet(ts) && alg != RMA && Passes(alg, ts, n)
    ensures OnePending(At(alg, ts, n))
  {
    hide At, TaskSet, Books;
    StaysLax(alg, ts, n);
    RunKeepsBooks(alg, ts, n);
    LaxIsOnePending(alg, ts, At(alg, ts, n));
  }

  lemma DominanceStep(ts: seq<Task>, x: Run, y: Run, y': Run)
    requires TaskSet(ts) && Dominates(ts, x, y) && Conserves(y, y')
    requires OnePending(Advance(SCT, x)) && OnePending(y')
    ensures Dominates(ts, Advance(SCT, x), y')
  {
    IdleTogether(ts, x, y);
    if Idle(x.tasks) {
      IdleQuantum(ts, x, y);
    } else {
      var j: nat :| j < |y.tasks| && Ready(y.tasks[j]) && y' == Grant(SCT, y, j);
      BusyQuantum(ts, x, y, j);
    }
  }

  lemma {:induction false} TraceIsDominated(ts: seq<Task>, tr: seq<Run>, m: nat)
    requires TaskSet(ts) && WorkConserving(ts, tr) && m < |tr|
    requires Passes(SCT, ts, m)
    ensures Dominates(ts, At(SCT, ts, m), tr[m])
  {
    hide At, Advance, TaskSet, Dominates, OnePending, Check, Conserves;
    if m == 0 {
      StartsAtZero(SCT, ts);
      StartDominates(ts);
    } else {
      TraceIsDominated(ts, tr, m - 1);
      NextState(SCT, ts, m - 1);
      StaysOnePending(SCT, ts, m);
      assert Conserves(tr[m - 1], tr[m - 1 + 1]);
      DominanceStep(ts, At(SCT, ts, m - 1), tr[m - 1], tr[m]);
    }
  }

  /** No work-conserving schedule without backlogged tasks has completed more jobs than SCT at any time. */
  lemma SctDominates(ts: seq<Task>, tr: seq<Run>, m: nat)
    requires TaskSet(ts) && WorkConserving(ts, tr) && m < |tr|
    requires Passes(SCT, ts, m)
    ensures At(SCT, ts, m).now == tr[m].now
    ensures Sum(tr[m].done) <= Sum(At(SCT, ts, m).done)
  {
    TraceIsDominated(ts, tr, m);
    DominanceCounts(ts, At(SCT, ts, m), tr[m]);
  }

  // ---------- EDF ----------

  lemma EdfConserves(ts: seq<Task>, m: nat)
    ensures Conserves(At(EDF, ts, m), At(EDF, ts, m + 1))
  {
    var x := At(EDF, ts, m);
    NextState(EDF, ts, m);
    if !Idle(x.tasks) {
      var j := Head(EDF, x.tasks);
      assert Grant(EDF, x, j) == Grant(SCT, x, j);
    }
  }

  /** While both pass their checks, SCT and EDF are at the same instant after n steps, and SCT has completed no fewer jobs. */
  lemma SctDominatesEdf(ts: seq<Task>, n: nat)
    requires TaskSet(ts) && Passes(SCT, ts, n) && Passes(EDF, ts, n)
    ensures At(SCT, ts, n).now == At(EDF, ts, n).now
    ensures Sum(At(EDF, ts, n).done) <= Sum(At(SCT, ts, n).done)
  {
    hide Advance, Check, TaskSet, OnePending, Conserves;
    var tr := seq(n + 1, m requires 0 <= m < n + 1 => At(EDF, ts, m));
    forall m: nat | m < |tr|
      ensures OnePending(tr[m])
      ensures m < |tr| - 1 ==> Conserves(tr[m], tr[m + 1])
    {
      StaysOnePending(EDF, ts, m);
      EdfConserves(ts, m);
    }
    StartsAtZero(EDF, ts);
    SctDominates(ts, tr, n);
  }

  // ---------- RMA ----------

  /** RMA's job of the head, seen quantum by quantum. */
  function Quanta(y: Run, h: nat, q: nat): (z: Run)
    requires h < |y.tasks| == |y.done|
    ensures |z.tasks| == |z.done| == |y.tasks|
  {
    if q == 0 then y else Grant(SCT, Quanta(y, h, q - 1), h)
  }

  lemma {:induction false} QuantaSoFar(y: Run, h: nat, q: nat)
    requires h < |y.tasks| == |y.done| && y.tasks[h].a == 0 && q < y.tasks[h].c
    ensures var z := Quanta(y, h, q);
            && z.done == y.done && z.now == y.now + q && z.idle == y.idle
            && forall i :: 0 <= i < |y.tasks| ==>
                 z.tasks[i] == y.tasks[i].(a := if i == h then q else y.tasks[i].a, r := y.tasks[i].r - q)
  {
    if q > 0 {
      QuantaSoFar(y, h, q - 1);
    }
  }

  /** A whole job in one step is the same as its quanta in a row. */
  lemma JobIsItsQuanta(y: Run, h: nat)
    requires h < |y.tasks| == |y.done| && y.tasks[h].a == 0 && y.tasks[h].c > 0
    ensures Quanta(y, h, y.tasks[h].c) == Grant(RMA, y, h)
  {
    var c := y.tasks[h].c;
    QuantaSoFar(y, h, c - 1);
    LastQuantum(y, Quanta(y, h, c - 1), h);
  }

  lemma LastQuantum(y: Run, z: Run, h: nat)
    requires h < |y.tasks| == |y.done| == |z.tasks| && y.tasks[h].a == 0 && y.tasks[h].c > 0
    requires z.done == y.done && z.now == y.now + y.tasks[h].c - 1 && z.idle == y.idle
    requires forall i :: 0 <= i < |y.tasks| ==>
               z.tasks[i] == y.tasks[i].(a := if i == h then y.tasks[h].c - 1 else y.tasks[i].a,
                                         r := y.tasks[i].r - (y.tasks[h].c - 1))
    ensures Grant(SCT, z, h) == Grant(RMA, y, h)
  {
    assert Grant(SCT, z, h).tasks == Grant(RMA, y, h).tasks;
  }

  /** Between two passed checks of RMA no task falls a period behind, not even in mid-job. */
  lemma QuantaArePending(ts: seq<Task>, y: Run, h: nat, q: nat)
    requires TaskSet(ts) && Books(RMA, ts, y) && Check(RMA, y.tasks)
    requires !Idle(y.tasks) && h == Head(RMA, y.tasks) && q <= y.tasks[h].c
    requires Books(RMA, ts, Grant(RMA, y, h)) && Lax(Grant(RMA, y, h).tasks)
    ensures OnePending(Quanta(y, h, q))
  {
    var g := Grant(RMA, y, h);
    assert ts[h].WellFormed() && TaskBooks(RMA, ts[h], y.tasks[h], y.done[h], y.now);
    if q == y.tasks[h].c {
      JobIsItsQuanta(y, h);
      LaxIsOnePending(RMA, ts, g);
    } else {
      QuantaSoFar(y, h, q);
      CheckMeans(RMA, y.tasks);
      forall i | 0 <= i < |ts|
        ensures -y.tasks[i].p < y.tasks[i].r - q
      {
        assert ts[i].WellFormed() && TaskBooks(RMA, ts[i], y.tasks[i], y.done[i], y.now);
      }
    }
  }

  lemma NextQuantum(ts: seq<Task>, m: nat, z: Run, h: nat)
    requires TaskSet(ts) && Dominates(ts, At(SCT, ts, m), z) && Passes(SCT, ts, m + 1)
    requires h < |ts| && Ready(z.tasks[h]) && OnePending(Grant(SCT, z, h))
    ensures Dominates(ts, At(SCT, ts, m + 1), Grant(SCT, z, h))
  {
    hide TaskSet, OnePending, Check, At, Advance, Grant, Books;
    IdleTogether(ts, At(SCT, ts, m), z);
    StaysOnePending(SCT, ts, m + 1);
    NextState(SCT, ts, m);
    BusyQuantum(ts, At(SCT, ts, m), z, h);
  }

  /** y starts a job of h under RMA, and no task is a period behind at any of its quanta. */
  ghost predicate StartsJob(ts: seq<Task>, y: Run, h: nat) {
    && Books(RMA, ts, y) && h < |ts|
    && Ready(y.tasks[h]) && y.tasks[h].a == 0 && y.tasks[h].c > 0
    && forall j: nat :: j <= y.tasks[h].c ==> OnePending(Quanta(y, h, j))
  }

  lemma NextQuantumOfJob(ts: seq<Task>, m: nat, y: Run, h: nat, q: nat)
    requires h < |y.tasks| == |y.done| && TaskSet(ts) && StartsJob(ts, y, h)
    requires q < y.tasks[h].c && Dominates(ts, At(SCT, ts, m), Quanta(y, h, q))
    requires PassesUntil(SCT, ts, y.now + y.tasks[h].c)
    ensures Dominates(ts, At(SCT, ts, m + 1), Quanta(y, h, q + 1))
  {
    var z := Quanta(y, h, q);
    QuantaSoFar(y, h, q);
    assert OnePending(Quanta(y, h, q + 1));
    hide Books, TaskSet, OnePending, Check, At, PassesUntil;
    EarlierPasses(ts, m, y.now + y.tasks[h].c);
    NextQuantum(ts, m, z, h);
  }

  /** SCT's next q steps dominate the first q quanta of RMA's job. */
  lemma {:induction false} QuantaAreDominated(ts: seq<Task>, m: nat, y: Run, h: nat, q: nat)
    requires h < |y.tasks| == |y.done| && TaskSet(ts) && StartsJob(ts, y, h)
    requires Dominates(ts, At(SCT, ts, m), y)
    requires q <= y.tasks[h].c
    requires PassesUntil(SCT, ts, y.now + y.tasks[h].c)
    ensures Dominates(ts, At(SCT, ts, m + q), Quanta(y, h, q))
  {
    hide At, Dominates, StartsJob, TaskSet, PassesUntil;
    if q > 0 {
      QuantaAreDominated(ts, m, y, h, q - 1);
      NextQuantumOfJob(ts, m + q - 1, y, h, q - 1);
    }
  }

  lemma EarlierPasses(ts: seq<Task>, m: nat, h: int)
    requires TaskSet(ts) && PassesUntil(SCT, ts, h) && At(SCT, ts, m).now <= h
    ensures Passes(SCT, ts, m + 1)
  {
    hide At, Check, TaskSet;
    forall k: nat | k < m + 1
      ensures Check(SCT, At(SCT, ts, k).tasks)
    {
      if k < m {
        TimeIsMonotone(SCT, ts, k, m);
      }
    }
  }

  lemma RmaStartsJob(ts: seq<Task>, n: nat) returns (h: nat)
    requires TaskSet(ts) && Passes(RMA, ts, n + 2)
    requires !Idle(At(RMA, ts, n).tasks)
    ensures StartsJob(ts, At(RMA, ts, n), h)
    ensures At(RMA, ts, n + 1) == Grant(RMA, At(RMA, ts, n), h)
  {
    var y := At(RMA, ts, n);
    h := Head(RMA, y.tasks);
    NextState(RMA, ts, n);
    assert At(RMA, ts, n + 1) == Grant(RMA, y, h);
    hide At, Advance;
    RunKeepsBooks(RMA, ts, n);
    RunKeepsBooks(RMA, ts, n + 1);
    TaskKeepsBooks(RMA, ts, n, h);
    PassedIsLax(RMA, ts, At(RMA, ts, n + 1));
    hide Books, TaskSet, OnePending, Quanta;
    forall j: nat | j <= y.tasks[h].c
      ensures OnePending(Quanta(y, h, j))
    {
      QuantaArePending(ts, y, h, j);
    }
  }

  lemma RmaGrantIsDominated(ts: seq<Task>, m: nat, n: nat) returns (m': nat)
    requires TaskSet(ts) && Passes(RMA, ts, n + 2)
    requires !Idle(At(RMA, ts, n).tasks)
    requires Dominates(ts, At(SCT, ts, m), At(RMA, ts, n))
    requires PassesUntil(SCT, ts, At(RMA, ts, n + 1).now)
    ensures Dominates(ts, At(SCT, ts, m'), At(RMA, ts, n + 1))
  {
    hide At, Idle, Dominates, PassesUntil, Passes, TaskSet, Books, OnePending;
    var y := At(RMA, ts, n);
    var h := RmaStartsJob(ts, n);
    m' := m + y.tasks[h].c;
    QuantaAreDominated(ts, m, y, h, y.tasks[h].c);
    JobIsItsQuanta(y, h);
  }

  lemma RmaStepIsDominated(ts: seq<Task>, m: nat, n: nat) returns (m': nat)
    requires TaskSet(ts) && Passes(RMA, ts, n + 2)
    requires Dominates(ts, At(SCT, ts, m), At(RMA, ts, n))
    requires PassesUntil(SCT, ts, At(RMA, ts, n + 1).now)
    ensures Dominates(ts, At(SCT, ts, m'), At(RMA, ts, n + 1))
  {
    hide Advance, At, Dominates;
    if Idle(At(RMA, ts, n).tasks) {
      m' := m + 1;
      IdleTogether(ts, At(SCT, ts, m), At(RMA, ts, n));
      IdleQuantum(ts, At(SCT, ts, m), At(RMA, ts, n));
      RestsNext(SCT, ts, m);
      RestsNext(RMA, ts, n);
    } else {
      m' := RmaGrantIsDominated(ts, m, n);
    }
  }

  lemma RestsNext(alg: Alg, ts: seq<Task>, n: nat)
    requires Idle(At(alg, ts, n).tasks)
    ensures At(alg, ts, n + 1) == Rest(At(alg, ts, n))
  {
  }

  lemma {:induction false} RmaIsDominated(ts: seq<Task>, n: nat) returns (m: nat)
    requires TaskSet(ts) && Passes(RMA, ts, n + 1)
    requires PassesUntil(SCT, ts, At(RMA, ts, n).now)
    ensures Dominates(ts, At(SCT, ts, m), At(RMA, ts, n))
  {
    hide Advance, At, Dominates, Check;
    if n == 0 {
      m := 0;
      StartsAtZero(SCT, ts);
      StartsAtZero(RMA, ts);
      StartDominates(ts);
    } else {
      TimeIsMonotone(RMA, ts, n - 1, n);
      var m0 := RmaIsDominated(ts, n - 1);
      m := RmaStepIsDominated(ts, m0, n - 1);
    }
  }

  /** While both pass their checks, at each step boundary of RMA, SCT has completed no fewer jobs. */
  lemma SctDominatesRma(ts: seq<Task>, n: nat) returns (m: nat)
    requires TaskSet(ts) && Passes(RMA, ts, n + 1)
    requires PassesUntil(SCT, ts, At(RMA, ts, n).now)
    ensures At(SCT, ts, m).now == At(RMA, ts, n).now
    ensures Sum(At(RMA, ts, n).done) <= Sum(At(SCT, ts, m).done)
  {
    m := RmaIsDominated(ts, n);
    DominanceCounts(ts, At(SCT, ts, m), At(RMA, ts, n));
  }
}
