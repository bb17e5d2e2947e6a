/**
 Who runs next: idle steps land on releases, the preemptive algorithms switch only at a release
 or a completion, and under RMA the top task waits for less than one foreign job.
 */
module Preemption {
  import opened Tasks
  import opened Engine
  import opened Bookkeeping
  import opened Deadlines

  // ---------- idling ----------

  /** An idle step ends exactly at the next release of any task, so some task is then ready. */
  lemma IdleLandsOnRelease(alg: Alg, ts: seq<Task>, n: nat)
    requires ts != [] && forall i :: 0 <= i < |ts| ==> 1 <= ts[i].c <= ts[i].d <= ts[i].p <= 0x7FFF_FFFF
    requires Idle(At(alg, ts, n).tasks)
    ensures forall i :: 0 <= i < |ts| ==>
              At(alg, ts, n).now < At(alg, ts, n + 1).now <= At(alg, ts, n + 1).done[i] * ts[i].p
    ensures exists i :: 0 <= i < |ts| && At(alg, ts, n + 1).now == At(alg, ts, n + 1).done[i] * ts[i].p
    ensures !Idle(At(alg, ts, n + 1).tasks)
  {
    var x := At(alg, ts, n);
    NextState(alg, ts, n);
    assert At(alg, ts, n + 1) == Rest(x);
    RunKeepsBooks(alg, ts, n);
    hide At;
    MinRIsRelease(alg, ts, x);
    forall i | 0 <= i < |ts|
      ensures Rest(x).now <= x.done[i] * ts[i].p
      ensures x.tasks[i].r == MinR(x.tasks) ==> Rest(x).now == x.done[i] * ts[i].p
    {
      assert TaskBooks(alg, ts[i], x.tasks[i], x.done[i], x.now);
    }
    var i :| 0 <= i < |ts| && x.tasks[i].r == MinR(x.tasks);
    assert Ready(Rest(x).tasks[i]);
  }

  // ---------- preemption ----------

  /** A quantum keeps the order of the waiting tasks and does not make the running one less urgent. */
  lemma QuantumKeepsOrder(alg: Alg, t: Task, u: Task)
    requires alg != RMA && !Finishes(alg, t)
    ensures Key(alg, Charged(alg, t)) - Key(alg, Wait(u, 1)) <= Key(alg, t) - Key(alg, u)
  {
  }

  /** Under EDF and SCT, a task that takes over from an unfinished head was released in this very quantum. */
  lemma PreemptorIsNew(alg: Alg, s: seq<Task>)
    requires alg != RMA && !Idle(s) && !Finishes(alg, s[Head(alg, s)])
    ensures !Idle(Step(alg, s))
    ensures
      var h, g := Head(alg, s), Head(alg, Step(alg, s));
      g != h ==> s[g].r == 1 && Step(alg, s)[g].r == 0 && Key(alg, Step(alg, s)[g]) <= Key(alg, Step(alg, s)[h])
  {
    var s', h := Step(alg, s), Head(alg, s);
    assert Ready(s'[h]);
    var g := Head(alg, s');
    HeadIsBest(alg, s);
    HeadIsBest(alg, s');
    if g != h {
      assert s'[g] == Wait(s[g], 1) && s'[h] == Charged(alg, s[h]);
      QuantumKeepsOrder(alg, s[h], s[g]);
    }
  }

  /** So without a completion or a release the head keeps the processor. */
  lemma HeadStays(alg: Alg, s: seq<Task>)
    requires alg != RMA && !Idle(s) && !Finishes(alg, s[Head(alg, s)])
    requires forall i :: 0 <= i < |s| && !Ready(s[i]) ==> !Ready(Step(alg, s)[i])
    ensures !Idle(Step(alg, s)) && Head(alg, Step(alg, s)) == Head(alg, s)
  {
    PreemptorIsNew(alg, s);
  }

  /** Under SCT a preemptor has no more left to run than the task it preempts. */
  lemma SctPreemptsForShorter(s: seq<Task>)
    requires !Idle(s) && !Finishes(SCT, s[Head(SCT, s)])
    ensures !Idle(Step(SCT, s))
    ensures Step(SCT, s)[Head(SCT, Step(SCT, s))].CompletionTime() <= s[Head(SCT, s)].CompletionTime() - 1
  {
    PreemptorIsNew(SCT, s);
  }

  // ---------- non-preemptive blocking ----------

  /** i has the shortest period, and was registered first among those. */
  predicate TopTask(ts: seq<Task>, i: nat) {
    && i < |ts|
    && (forall j :: 0 <= j < |ts| ==> ts[i].p <= ts[j].p)
    && forall j :: 0 <= j < i ==> ts[i].p < ts[j].p
  }

  /** Every other task's jobs take at most b quanta. */
  predicate Foreign(ts: seq<Task>, i: nat, b: nat) {
    && b >= 1
    && forall j :: 0 <= j < |ts| && j != i ==> ts[j].c <= b
  }

  lemma TopTaskHeads(ts: seq<Task>, x: Run, i: nat)
    requires Books(RMA, ts, x) && TopTask(ts, i) && Ready(x.tasks[i])
    ensures Head(RMA, x.tasks) == i
  {
    HeadIsBest(RMA, x.tasks);
    var h := Head(RMA, x.tasks);
    assert TaskBooks(RMA, ts[i], x.tasks[i], x.done[i], x.now);
    assert TaskBooks(RMA, ts[h], x.tasks[h], x.done[h], x.now);
  }

  lemma BlockingStep(ts: seq<Task>, x: Run, i: nat, b: nat)
    requires TaskSet(ts) && Books(RMA, ts, x) && TopTask(ts, i) && Foreign(ts, i, b)
    requires 1 - b <= x.tasks[i].r
    ensures 1 - b <= Advance(RMA, x).tasks[i].r
  {
    assert ts[i].WellFormed() && TaskBooks(RMA, ts[i], x.tasks[i], x.done[i], x.now);
    if !Idle(x.tasks) {
      if Ready(x.tasks[i]) {
        TopTaskHeads(ts, x, i);
      } else {
        var h := Head(RMA, x.tasks);
        assert TaskBooks(RMA, ts[h], x.tasks[h], x.done[h], x.now);
      }
    }
  }

  /** RMA never keeps the top task waiting for a whole foreign job. */
  lemma {:induction false} BlockingBound(ts: seq<Task>, n: nat, i: nat, b: nat)
    requires TaskSet(ts) && TopTask(ts, i) && Foreign(ts, i, b)
    ensures 1 - b <= At(RMA, ts, n).tasks[i].r
  {
    hide Advance, Books, TaskSet;
    if n == 0 {
      StartsAtZero(RMA, ts);
    } else {
      BlockingBound(ts, n - 1, i, b);
      NextState(RMA, ts, n - 1);
      RunKeepsBooks(RMA, ts, n - 1);
      BlockingStep(ts, At(RMA, ts, n - 1), i, b);
    }
  }

  /** When the top task is ready it starts at once, less than b quanta after its release, and runs through. */
  lemma TopTaskResponds(ts: seq<Task>, n: nat, i: nat, b: nat)
    requires TaskSet(ts) && TopTask(ts, i) && Foreign(ts, i, b)
    requires Ready(At(RMA, ts, n).tasks[i])
    ensures Completes(RMA, ts, n, i, At(RMA, ts, n).done[i])
    ensures At(RMA, ts, n).now < At(RMA, ts, n).done[i] * ts[i].p + b
    ensures At(RMA, ts, n + 1).now == At(RMA, ts, n).now + ts[i].c
  {
    BlockingBound(ts, n, i, b);
    RunKeepsBooks(RMA, ts, n);
    TopTaskHeads(ts, At(RMA, ts, n), i);
    TaskKeepsBooks(RMA, ts, n, i);
    NextState(RMA, ts, n);
  }

  /** With a deadline that covers one foreign job less a quantum, the top task never fails the check. */
  lemma TopTaskNeverFails(ts: seq<Task>, n: nat, i: nat, b: nat)
    requires TaskSet(ts) && TopTask(ts, i) && Foreign(ts, i, b)
    requires ts[i].c + b - 1 <= ts[i].d
    requires Ready(At(RMA, ts, n).tasks[i])
    ensures i == Head(RMA, At(RMA, ts, n).tasks)
    ensures At(RMA, ts, n).tasks[i].CompletionTime() <= At(RMA, ts, n).tasks[i].RemainingTime()
  {
    BlockingBound(ts, n, i, b);
    RunKeepsBooks(RMA, ts, n);
    TopTaskHeads(ts, At(RMA, ts, n), i);
    TaskKeepsBooks(RMA, ts, n, i);
  }
}
