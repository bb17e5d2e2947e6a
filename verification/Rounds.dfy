/**
 Whole tests, as executions of the threads: a round starts only after a passed check, every round that may
 start can be completed, and a test that fails a check comes to its end.
 */
module Rounds {
  import opened Sums
  import opened Tasks
  import opened Engine
  import opened Bookkeeping
  import opened Handshake

  // ---------- rounds follow passed checks ----------

  ghost predicate Guarded(alg: Alg, ts: seq<Task>, s: System, n: nat) {
    Passes(alg, ts, n) && (s.phase.Blocked? ==> Passes(alg, ts, n + 1))
  }

  lemma PassesAlso(alg: Alg, ts: seq<Task>, n: nat)
    requires Passes(alg, ts, n) && Check(alg, At(alg, ts, n).tasks)
    ensures Passes(alg, ts, n + 1)
  {
  }

  lemma CompletingHasPassed(alg: Alg, s: System, act: Action)
    requires Sized(s) && Enabled(alg, s, act) && CompletesRound(act)
    ensures s.phase.Blocked? || Check(alg, s.run.tasks)
  {
  }

  lemma BlockedHasPassed(alg: Alg, ts: seq<Task>, s: System)
    requires Inv(alg, ts, s) && s.phase.Blocked?
    ensures Check(alg, s.run.tasks)
  {
  }

  lemma GuardedNext(alg: Alg, ts: seq<Task>, s: System, act: Action, s': System, n: nat)
    requires Guarded(alg, ts, s, n) && s.run == At(alg, ts, n) && Moves(alg, s, act, s') && Inv(alg, ts, s')
    requires s'.run == At(alg, ts, if CompletesRound(act) then n + 1 else n)
    ensures Guarded(alg, ts, s', if CompletesRound(act) then n + 1 else n)
  {
    hide At, Check, Inv, Do, Enabled, Sized, Passes;
    var k := if CompletesRound(act) then n + 1 else n;
    if CompletesRound(act) {
      CompletingHasPassed(alg, s, act);
      if !s.phase.Blocked? {
        PassesAlso(alg, ts, n);
      }
    }
    if s'.phase.Blocked? {
      BlockedHasPassed(alg, ts, s');
      PassesAlso(alg, ts, k);
    }
  }

  lemma BeginIsGuarded(alg: Alg, ts: seq<Task>)
    ensures Guarded(alg, ts, Begin(ts), 0)
  {
  }

  lemma {:induction false} AlwaysGuarded(alg: Alg, ts: seq<Task>, states: seq<System>, acts: seq<Action>, m: nat)
    requires TaskSet(ts) && Execution(alg, ts, states, acts) && m <= |acts|
    ensures Guarded(alg, ts, states[m], Advances(acts, m))
  {
    hide At, TaskSet, Check, Guarded, Inv, Moves;
    ExecutionRefinesRun(alg, ts, states, acts, m);
    if m == 0 {
      BeginIsGuarded(alg, ts);
    } else {
      AlwaysGuarded(alg, ts, states, acts, m - 1);
      ExecutionRefinesRun(alg, ts, states, acts, m - 1);
      assert Moves(alg, states[m - 1], acts[m - 1], states[m - 1 + 1]);
      GuardedNext(alg, ts, states[m - 1], acts[m - 1], states[m], Advances(acts, m - 1));
    }
  }

  /** Every completed round had passed its check, and so has the one under way. */
  lemma RoundsHavePassed(alg: Alg, ts: seq<Task>, states: seq<System>, acts: seq<Action>, m: nat)
    requires TaskSet(ts) && Execution(alg, ts, states, acts) && m <= |acts|
    ensures Passes(alg, ts, Advances(acts, m))
    ensures states[m].phase.Blocked? ==> Passes(alg, ts, Advances(acts, m) + 1)
  {
    AlwaysGuarded(alg, ts, states, acts, m);
  }

  // ---------- every such round can be completed ----------

  lemma {:induction false} AdvancesPrefix(acts: seq<Action>, act: Action, m: nat)
    requires m <= |acts|
    ensures Advances(acts + [act], m) == Advances(acts, m)
  {
    if m > 0 {
      AdvancesPrefix(acts, act, m - 1);
    }
  }

  lemma OneMoreMove(alg: Alg, ts: seq<Task>, states: seq<System>, acts: seq<Action>, act: Action, s: System)
    requires Execution(alg, ts, states, acts) && Moves(alg, states[|acts|], act, s)
    ensures Execution(alg, ts, states + [s], acts + [act])
    ensures Advances(acts + [act], |acts| + 1) == Advances(acts, |acts|) + if CompletesRound(act) then 1 else 0
  {
    hide Moves;
    AdvancesPrefix(acts, act, |acts|);
    var states', acts' := states + [s], acts + [act];
    forall m | 0 <= m < |acts'|
      ensures Moves(alg, states'[m], acts'[m], states'[m + 1])
    {
      if m < |acts| {
        assert Moves(alg, states[m], acts[m], states[m + 1]);
      }
    }
  }

  lemma MoveOn(alg: Alg, ts: seq<Task>, s: System, act: Action) returns (s': System)
    requires TaskSet(ts) && Inv(alg, ts, s) && Sized(s) && Enabled(alg, s, act)
    ensures Moves(alg, s, act, s')
  {
    hide TaskSet, Inv, Enabled, Sized, Do;
    CostsArePositive(alg, ts, s);
    s' := Do(alg, s, act);
  }

  /** An execution goes on with any enabled action. */
  lemma Extend(alg: Alg, ts: seq<Task>, states: seq<System>, acts: seq<Action>, act: Action)
    returns (states': seq<System>, acts': seq<Action>)
    requires TaskSet(ts) && Execution(alg, ts, states, acts)
    requires Sized(states[|acts|]) && Enabled(alg, states[|acts|], act)
    ensures Execution(alg, ts, states', acts') && |acts'| == |acts| + 1
    ensures Moves(alg, states[|acts|], act, states'[|acts'|])
    ensures Advances(acts', |acts'|) == Advances(acts, |acts|) + if CompletesRound(act) then 1 else 0
  {
    hide TaskSet, Inv, Enabled, Sized, At, Do, Moves, Begin;
    var s, last := states[|acts|], |acts|;
    ExecutionRefinesRun(alg, ts, states, acts, last);
    var s' := MoveOn(alg, ts, s, act);
    states', acts' := states + [s'], acts + [act];
    OneMoreMove(alg, ts, states, acts, act, s');
  }

  /** A blocked scheduler can be brought back, one round further on. */
  lemma {:induction false} FinishRound(alg: Alg, ts: seq<Task>, states: seq<System>, acts: seq<Action>, left: nat)
    returns (states': seq<System>, acts': seq<Action>)
    requires TaskSet(ts) && Execution(alg, ts, states, acts) && states[|acts|].phase.Blocked?
    requires Sized(states[|acts|]) && Sum(BlockEfforts(states[|acts|])) <= left
    ensures Execution(alg, ts, states', acts') && states'[|acts'|].phase == Deciding
    ensures Advances(acts', |acts'|) == Advances(acts, |acts|) + 1
    decreases left
  {
    var s := states[|acts|];
    ExecutionRefinesRun(alg, ts, states, acts, |acts|);
    hide TaskSet, Inv, Enabled, Sized, At, Do, BlockEfforts, Sum, Execution;
    var act := BlockedIsLive(alg, ts, s);
    states', acts' := Extend(alg, ts, states, acts, act);
    BlockEnds(alg, ts, s, act, states'[|acts'|]);
    if !CompletesRound(act) {
      states', acts' := FinishRound(alg, ts, states', acts', left - 1);
    }
  }

  ghost predicate CanComplete(alg: Alg, ts: seq<Task>, n: nat) {
    exists states, acts :: Execution(alg, ts, states, acts) && Advances(acts, |acts|) == n
  }

  lemma NextRound(alg: Alg, ts: seq<Task>, states: seq<System>, acts: seq<Action>)
    returns (states': seq<System>, acts': seq<Action>)
    requires TaskSet(ts) && Execution(alg, ts, states, acts) && states[|acts|].phase == Deciding
    requires Check(alg, states[|acts|].run.tasks)
    ensures Execution(alg, ts, states', acts') && states'[|acts'|].phase == Deciding
    ensures Advances(acts', |acts'|) == Advances(acts, |acts|) + 1
  {
    var s := states[|acts|];
    ExecutionRefinesRun(alg, ts, states, acts, |acts|);
    hide TaskSet, Inv, At, Execution, Check, Idle, BlockEfforts, Sum;
    InvIsSized(alg, ts, s);
    if Idle(s.run.tasks) {
      states', acts' := Extend(alg, ts, states, acts, Skip);
    } else {
      states', acts' := Extend(alg, ts, states, acts, Dispatch);
      var e := BlockedEffort(alg, ts, states', acts');
      states', acts' := FinishRound(alg, ts, states', acts', e);
    }
  }

  lemma BlockedEffort(alg: Alg, ts: seq<Task>, states: seq<System>, acts: seq<Action>) returns (e: nat)
    requires TaskSet(ts) && Execution(alg, ts, states, acts) && states[|acts|].phase.Blocked?
    ensures Sized(states[|acts|]) && Sum(BlockEfforts(states[|acts|])) == e
  {
    hide TaskSet, Inv, At, Sum, BlockEfforts;
    ExecutionRefinesRun(alg, ts, states, acts, |acts|);
    InvIsSized(alg, ts, states[|acts|]);
    InvEfforts(alg, ts, states[|acts|]);
    e := Sum(BlockEfforts(states[|acts|]));
  }

  lemma {:induction false} RunsRounds(alg: Alg, ts: seq<Task>, n: nat) returns (states: seq<System>, acts: seq<Action>)
    requires TaskSet(ts) && Passes(alg, ts, n)
    ensures Execution(alg, ts, states, acts) && states[|acts|].phase == Deciding
    ensures Advances(acts, |acts|) == n
  {
    hide At, TaskSet, Check, Moves;
    if n == 0 {
      states, acts := [Begin(ts)], [];
    } else {
      states, acts := RunsRounds(alg, ts, n - 1);
      ExecutionRefinesRun(alg, ts, states, acts, |acts|);
      states, acts := NextRound(alg, ts, states, acts);
    }
  }

  /** The threads can complete n rounds if and only if the first n checks pass. */
  lemma RoundsArePassedChecks(alg: Alg, ts: seq<Task>, n: nat)
    requires TaskSet(ts)
    ensures CanComplete(alg, ts, n) <==> Passes(alg, ts, n)
  {
    hide At, TaskSet, Check, Execution, Passes;
    if CanComplete(alg, ts, n) {
      var states, acts :| Execution(alg, ts, states, acts) && Advances(acts, |acts|) == n;
      RoundsHavePassed(alg, ts, states, acts, |acts|);
    }
    if Passes(alg, ts, n) {
      var states, acts := RunsRounds(alg, ts, n);
    }
  }

  // ---------- the end of a test ----------

  /** A test whose check fails at round n has halted after at most n rounds, whenever nothing more can happen. */
  lemma FailedTestHalts(alg: Alg, ts: seq<Task>, states: seq<System>, acts: seq<Action>, n: nat)
    requires TaskSet(ts) && Execution(alg, ts, states, acts) && !Check(alg, At(alg, ts, n).tasks)
    requires forall act :: !(Sized(states[|acts|]) && Enabled(alg, states[|acts|], act))
    ensures states[|acts|].phase == Halted && Advances(acts, |acts|) <= n
    ensures |states[|acts|].workers| == |ts|
    ensures forall i :: 0 <= i < |ts| ==> states[|acts|].workers[i].place == Exited
  {
    hide At, TaskSet, Check, Enabled, Sized, Execution;
    StoppingEnds(alg, ts, states, acts);
    RoundsHavePassed(alg, ts, states, acts, |acts|);
  }

  /** No job is longer than c quanta. */
  predicate NoLonger(v: seq<Task>, c: nat) {
    forall i :: 0 <= i < |v| ==> 0 <= v[i].c <= c
  }

  /** The actions left, if the check of round n fails and r rounds have been completed. */
  function ActionsLeft(ts: seq<Task>, s: System, r: nat, n: nat, c: nat): int
    requires Sized(s)
  {
    if Ending(s.phase) then Remaining(s)
    else Sum(Efforts(s)) + StopCost(ts, 0) + 1 + (n - r) * (c + 8) - if s.phase.Blocked? then c + 6 else 0
  }

  lemma OneRoundLess(k: int, c: int)
    ensures (k - 1) * (c + 8) == k * (c + 8) - c - 8
  {
  }

  lemma AtLeastOneRound(k: int, c: nat)
    requires k >= 1
    ensures k * (c + 8) >= c + 8
  {
  }

  lemma {:induction false} SameStopCost(v: seq<Task>, w: seq<Task>, i: nat)
    requires |v| == |w| && forall j :: 0 <= j < |v| ==> v[j].c == w[j].c
    ensures StopCost(v, i) == StopCost(w, i)
    decreases |v| - i
  {
    if i < |v| {
      SameStopCost(v, w, i + 1);
    }
  }

  lemma CostsAreKept(alg: Alg, ts: seq<Task>, s: System)
    requires TaskSet(ts) && Inv(alg, ts, s)
    ensures |s.run.tasks| == |ts| && forall i :: 0 <= i < |ts| ==> s.run.tasks[i].c == ts[i].c > 0
  {
    forall i | 0 <= i < |ts|
      ensures s.run.tasks[i].c == ts[i].c > 0
    {
      assert TaskBooks(alg, ts[i], s.run.tasks[i], s.run.done[i], s.run.now);
    }
  }

  lemma SameEfforts(s: System, s': System)
    requires Sized(s) && Sized(s') && |s.workers| == |s'.workers|
    requires forall i :: 0 <= i < |s.workers| ==> s'.run.tasks[i].c == s.run.tasks[i].c
    requires forall i :: 0 <= i < |s.workers| ==>
               s'.workers[i].cont == s.workers[i].cont && s'.workers[i].place == s.workers[i].place
    ensures Efforts(s') == Efforts(s)
  {
  }

  lemma CompletingEfforts(alg: Alg, s: System, act: Action)
    requires Sized(s) && Enabled(alg, s, act) && (CompletesRound(act) || act == Stop)
    requires forall j :: 0 <= j < |s.run.tasks| ==> s.run.tasks[j].c >= 0
    ensures Sized(Do(alg, s, act)) && Efforts(Do(alg, s, act)) == Efforts(s)
    ensures Do(alg, s, act).phase == if act == Stop then Stopping(0) else Deciding
  {
    hide Check, Idle, Head, MinR;
    SameEfforts(s, Do(alg, s, act));
  }

  lemma ReleasedWorker(t: Task, w: Worker)
    ensures Effort(t, w.(cont := w.cont + 1, released := w.released + 1)) == Effort(t, w) + t.c + 5
  {
    assert (w.cont + 1) * (t.c + 5) == w.cont * (t.c + 5) + (t.c + 5);
  }

  /** Of the scheduler's own actions only a dispatch gives a worker something to do. */
  lemma DispatchEfforts(alg: Alg, s: System, c: nat)
    requires Sized(s) && Enabled(alg, s, Dispatch) && NoLonger(s.run.tasks, c)
    ensures Sized(Do(alg, s, Dispatch)) && Do(alg, s, Dispatch).phase.Blocked?
    ensures Sum(Efforts(Do(alg, s, Dispatch))) <= Sum(Efforts(s)) + c + 5
  {
    var s', e := Do(alg, s, Dispatch), Efforts(s);
    var h := Head(alg, s.run.tasks);
    var t := s.run.tasks[h];
    hide Check, Idle, Head, Effort, Sum;
    if t.AlreadyExecuting() {
      SameEfforts(s, s');
    } else {
      ReleasedWorker(t, s.workers[h]);
      assert Efforts(s') == e[h := e[h] + t.c + 5];
      SumUpdate(e, h, e[h] + t.c + 5);
    }
  }

  lemma DispatchNearsEnd(alg: Alg, ts: seq<Task>, s: System, r: nat, n: nat, c: nat)
    requires Sized(s) && Enabled(alg, s, Dispatch) && NoLonger(s.run.tasks, c)
    ensures Sized(Do(alg, s, Dispatch))
    ensures ActionsLeft(ts, Do(alg, s, Dispatch), r, n, c) < ActionsLeft(ts, s, r, n, c)
  {
    DispatchEfforts(alg, s, c);
    assert s.phase == Deciding;
    hide Efforts, Sum, StopCost, Do, Enabled, Check, Idle, Head, NoLonger;
  }

  lemma CompletingNearsEnd(alg: Alg, ts: seq<Task>, s: System, act: Action, r: nat, n: nat, c: nat)
    requires Sized(s) && Enabled(alg, s, act) && CompletesRound(act)
    requires forall j :: 0 <= j < |s.run.tasks| ==> s.run.tasks[j].c >= 0
    ensures Sized(Do(alg, s, act))
    ensures ActionsLeft(ts, Do(alg, s, act), r + 1, n, c) < ActionsLeft(ts, s, r, n, c)
  {
    CompletingEfforts(alg, s, act);
    assert s.phase == Deciding || s.phase.Blocked?;
    OneRoundLess(n - r, c);
    hide Efforts, Sum, StopCost, Do, Enabled;
  }

  lemma StopNearsEnd(alg: Alg, ts: seq<Task>, s: System, r: nat, n: nat, c: nat)
    requires Sized(s) && Enabled(alg, s, Stop) && r <= n
    requires |s.run.tasks| == |ts| && forall i :: 0 <= i < |ts| ==> s.run.tasks[i].c == ts[i].c >= 0
    ensures Sized(Do(alg, s, Stop))
    ensures ActionsLeft(ts, Do(alg, s, Stop), r, n, c) < ActionsLeft(ts, s, r, n, c)
  {
    CompletingEfforts(alg, s, Stop);
    assert s.phase == Deciding && Do(alg, s, Stop).run == s.run;
    SameStopCost(s.run.tasks, ts, 0);
    Scaled(0, n - r, c + 8);
    hide Efforts, Sum, StopCost, Do, Enabled;
  }

  lemma WorkerNearsEnd(alg: Alg, ts: seq<Task>, s: System, act: Action, r: nat, n: nat, c: nat)
    requires Sized(s) && Enabled(alg, s, act) && OfWorker(act) && !Ending(s.phase)
    requires forall j :: 0 <= j < |s.run.tasks| ==> s.run.tasks[j].c >= 0
    ensures Sized(Do(alg, s, act))
    ensures ActionsLeft(ts, Do(alg, s, act), r, n, c) < ActionsLeft(ts, s, r, n, c)
  {
    WorkerStepSpends(alg, s, act);
    assert Do(alg, s, act).phase.Blocked? <==> s.phase.Blocked?;
    assert Ending(Do(alg, s, act).phase) <==> Ending(s.phase);
    hide Efforts, Sum, StopCost, Do, Enabled;
  }

  lemma CostsAreBounded(alg: Alg, ts: seq<Task>, s: System, c: nat)
    requires TaskSet(ts) && Inv(alg, ts, s) && NoLonger(ts, c)
    ensures SameCosts(ts, s) && NoLonger(s.run.tasks, c)
  {
    CostsAreKept(alg, ts, s);
  }

  predicate SameCosts(ts: seq<Task>, s: System) {
    Sized(s) && |s.run.tasks| == |ts| && forall i :: 0 <= i < |ts| ==> s.run.tasks[i].c == ts[i].c > 0
  }

  /** Every action of every thread leaves fewer. */
  lemma ActionNearsEnd(alg: Alg, ts: seq<Task>, s: System, act: Action, s': System, r: nat, n: nat, c: nat)
    requires SameCosts(ts, s) && NoLonger(s.run.tasks, c) && Moves(alg, s, act, s') && r <= n
    ensures Sized(s')
    ensures ActionsLeft(ts, s', if CompletesRound(act) then r + 1 else r, n, c) < ActionsLeft(ts, s, r, n, c)
  {
    hide NoLonger, Do, ActionsLeft, Enabled, Sized;
    if OfWorker(act) && !Ending(s.phase) {
      WorkerNearsEnd(alg, ts, s, act, r, n, c);
    } else if CompletesRound(act) {
      CompletingNearsEnd(alg, ts, s, act, r, n, c);
    } else if act == Dispatch {
      DispatchNearsEnd(alg, ts, s, r, n, c);
    } else if act == Stop {
      StopNearsEnd(alg, ts, s, r, n, c);
    } else {
      EndingActs(alg, s, act);
      EndingNearsEnd(alg, ts, s, act, r, n, c);
    }
  }

  lemma EndingActs(alg: Alg, s: System, act: Action)
    requires Sized(s) && Enabled(alg, s, act) && !CompletesRound(act) && act != Dispatch && act != Stop
    requires OfWorker(act) ==> Ending(s.phase)
    ensures Ending(s.phase)
  {
  }

  lemma EndingNearsEnd(alg: Alg, ts: seq<Task>, s: System, act: Action, r: nat, n: nat, c: nat)
    requires Sized(s) && Enabled(alg, s, act) && Ending(s.phase)
    requires forall j :: 0 <= j < |s.run.tasks| ==> s.run.tasks[j].c >= 0
    ensures Sized(Do(alg, s, act)) && ActionsLeft(ts, Do(alg, s, act), r, n, c) < ActionsLeft(ts, s, r, n, c)
  {
    hide Do, Remaining, Enabled;
    StoppingNearsEnd(alg, s, act);
  }

  lemma RoundsLeft(alg: Alg, ts: seq<Task>, states: seq<System>, acts: seq<Action>, m: nat, n: nat)
    requires TaskSet(ts) && Execution(alg, ts, states, acts) && m <= |acts| && !Check(alg, At(alg, ts, n).tasks)
    ensures Advances(acts, m) <= n && (states[m].phase.Blocked? ==> Advances(acts, m) < n)
  {
    hide At, TaskSet, Check, Execution;
    RoundsHavePassed(alg, ts, states, acts, m);
  }

  lemma ActionsLeftIsNatural(alg: Alg, ts: seq<Task>, s: System, r: nat, n: nat, c: nat)
    requires TaskSet(ts) && Inv(alg, ts, s) && Sized(s) && r <= n && (s.phase.Blocked? ==> r < n)
    ensures ActionsLeft(ts, s, r, n, c) >= 0
  {
    CostsAreKept(alg, ts, s);
    EffortsAreNatural(s);
    RemainingIsNatural(s);
    StopCostIsPositive(ts, 0);
    Scaled(0, n - r, c + 8);
    if r < n {
      AtLeastOneRound(n - r, c);
    }
    hide Inv, TaskSet, Sized, Efforts, Sum, StopCost, Remaining;
  }

  lemma {:induction false} TestNearsEnd(alg: Alg, ts: seq<Task>, states: seq<System>, acts: seq<Action>, m: nat, n: nat, c: nat)
    requires TaskSet(ts) && Execution(alg, ts, states, acts) && m <= |acts|
    requires !Check(alg, At(alg, ts, n).tasks) && NoLonger(ts, c)
    ensures Sized(states[m]) && |acts| - m <= ActionsLeft(ts, states[m], Advances(acts, m), n, c)
    decreases |acts| - m
  {
    hide At, TaskSet, Check, NoLonger, Inv, Sized, Do, Enabled, ActionsLeft;
    ExecutionRefinesRun(alg, ts, states, acts, m);
    InvIsSized(alg, ts, states[m]);
    RoundsLeft(alg, ts, states, acts, m, n);
    if m == |acts| {
      ActionsLeftIsNatural(alg, ts, states[m], Advances(acts, m), n, c);
    } else {
      assert Moves(alg, states[m], acts[m], states[m + 1]);
      CostsAreBounded(alg, ts, states[m], c);
      ActionNearsEnd(alg, ts, states[m], acts[m], states[m + 1], Advances(acts, m), n, c);
      TestNearsEnd(alg, ts, states, acts, m + 1, n, c);
    }
  }

  lemma {:induction false} StopCostIsLinear(v: seq<Task>, i: nat, c: nat)
    requires NoLonger(v, c) && i <= |v|
    ensures StopCost(v, i) <= (|v| - i) * (c + 8) + 1
    decreases |v| - i
  {
    if i < |v| {
      StopCostIsLinear(v, i + 1, c);
      OneRoundLess(|v| - i, c);
    }
  }

  lemma BeginLeft(ts: seq<Task>, n: nat, c: nat)
    requires NoLonger(ts, c)
    ensures Sized(Begin(ts)) && ActionsLeft(ts, Begin(ts), 0, n, c) <= (n + |ts|) * (c + 8) + 2
  {
    SumZero(Efforts(Begin(ts)));
    StopCostIsLinear(ts, 0, c);
    assert (n + |ts|) * (c + 8) == n * (c + 8) + |ts| * (c + 8);
  }

  /** A test that fails its check of round n comes to its end: no execution of it is longer than this. */
  lemma FailedTestIsBounded(alg: Alg, ts: seq<Task>, states: seq<System>, acts: seq<Action>, n: nat, c: nat)
    requires TaskSet(ts) && Execution(alg, ts, states, acts)
    requires !Check(alg, At(alg, ts, n).tasks) && NoLonger(ts, c)
    ensures |acts| <= (n + |ts|) * (c + 8) + 2
  {
    hide At, TaskSet, Check, NoLonger, ActionsLeft;
    TestNearsEnd(alg, ts, states, acts, 0, n, c);
    BeginLeft(ts, n, c);
  }

  // ---------- the length of a block ----------

  lemma DispatchedWorker(t: Task, k: nat, w: Worker)
    requires AtRest(t, k, w)
    ensures Effort(t, if t.AlreadyExecuting() then w else w.(cont := w.cont + 1, released := w.released + 1)) <= t.c + 6
  {
  }

  lemma DispatchedEffort(alg: Alg, ts: seq<Task>, s: System)
    requires TaskSet(ts) && Inv(alg, ts, s) && Enabled(alg, s, Dispatch)
    requires forall j :: 0 <= j < |s.run.tasks| ==> s.run.tasks[j].c >= 0
    ensures var s' := Do(alg, s, Dispatch);
            && Sized(s') && s'.phase.Blocked? && s'.phase.h < |ts|
            && forall i :: 0 <= i < |s'.workers| ==>
                 BlockEfforts(s')[i] <= if i == s'.phase.h then ts[s'.phase.h].c + 6 else 1
  {
    hide TaskSet, Books, Check, Idle, Head, AtRest, Effort;
    CostsAreKept(alg, ts, s);
    var h := Head(alg, s.run.tasks);
    assert WorkerInv(alg, s, h);
    DispatchedWorker(s.run.tasks[h], s.run.done[h], s.workers[h]);
  }

  lemma OneLarge(e: seq<int>, h: nat, c: int)
    requires h < |e| && forall i :: 0 <= i < |e| ==> e[i] <= if i == h then c else 1
    ensures Sum(e) <= c + |e| - 1
  {
    var ones := seq(|e|, _ => 1);
    var u := seq(|e|, i requires 0 <= i < |e| => if i == h then c else 1);
    SumLe(e, u);
    assert u == ones[h := c];
    SumUpdate(ones, h, c);
    SumOfOnes(|e|);
  }

  lemma {:induction false} SumOfOnes(n: nat)
    ensures Sum(seq(n, _ => 1)) == n
  {
    if n > 0 {
      SumOfOnes(n - 1);
      assert seq(n, _ => 1)[1..] == seq(n - 1, _ => 1);
    }
  }

  /**
   A block is short: after a dispatch al_block returns within as many actions as the head's job has quanta, one
   for each thread and six more, unless the execution is cut off with an action still possible.
   */
  lemma BlockIsShort(alg: Alg, ts: seq<Task>, states: seq<System>, acts: seq<Action>, m: nat) returns (n: nat)
    requires TaskSet(ts) && Execution(alg, ts, states, acts) && m < |acts| && acts[m] == Dispatch
    ensures states[m + 1].phase.Blocked? && states[m + 1].phase.h < |ts|
    ensures m < n <= |acts| && n - (m + 1) <= ts[states[m + 1].phase.h].c + |ts| + 6
    ensures || (states[n].phase == Deciding && states[n].run == Advance(alg, states[m + 1].run))
            || (n == |acts| && Sized(states[n]) && exists act :: Enabled(alg, states[n], act))
  {
    ExecutionRefinesRun(alg, ts, states, acts, m);
    assert Moves(alg, states[m], acts[m], states[m + 1]);
    hide At, TaskSet, Inv, Sized, Enabled, Do, Execution, BlockEfforts, Sum;
    DispatchedEffort(alg, ts, states[m]);
    OneLarge(BlockEfforts(states[m + 1]), states[m + 1].phase.h, ts[states[m + 1].phase.h].c + 6);
    n := BlockReturns(alg, ts, states, acts, m + 1);
    WorkerCount(alg, ts, states, acts, m + 1);
  }

  lemma WorkerCount(alg: Alg, ts: seq<Task>, states: seq<System>, acts: seq<Action>, m: nat)
    requires TaskSet(ts) && Execution(alg, ts, states, acts) && m <= |acts|
    ensures |states[m].workers| == |ts|
  {
    hide At, TaskSet, Execution;
    ExecutionRefinesRun(alg, ts, states, acts, m);
  }
}
