/** The task sets of register_tasks in fixt/fixt.c, and what the theory says of them. */
module Registered {
  import opened Sums
  import opened Tasks
  import opened Engine
  import opened Bookkeeping
  import opened Feasibility
  import opened Utilisation
  import opened Delays
  import opened Priorities

  function New(c: int, p: int, d: int): Task {
    Task(c, p, d, 0, 0)
  }

  const SET1 := [New(1, 7, 7), New(2, 5, 5), New(1, 8, 8), New(1, 10, 10), New(2, 16, 16)]
  const SET2 := [New(1, 3, 3), New(2, 5, 5), New(1, 10, 10)]
  const SET3 := [New(1, 4, 4), New(2, 5, 5), New(1, 8, 8), New(1, 10, 10)]
  const SET4 := [New(1, 4, 4), New(1, 3, 3), New(1, 2, 2)]

  /** All deadlines are at the periods. */
  lemma DeadlinesArePeriods(ts: seq<Task>)
    requires ts == SET1 || ts == SET2 || ts == SET3 || ts == SET4
    ensures forall i :: 0 <= i < |ts| ==> ts[i].d == ts[i].p && ts[i].a == ts[i].r == 0
  {
  }

  lemma Load1()
    ensures TaskSet(SET1) && CommonMultiple(SET1, 560) && Load(SET1, 560) == 500
  {
    assert Weights(SET1, 560) == [80, 224, 70, 56, 70];
  }

  lemma Load2()
    ensures TaskSet(SET2) && CommonMultiple(SET2, 30) && Load(SET2, 30) == 25
  {
    assert Weights(SET2, 30) == [10, 12, 3];
  }

  lemma Load3()
    ensures TaskSet(SET3) && CommonMultiple(SET3, 40) && Load(SET3, 40) == 35
  {
    assert Weights(SET3, 40) == [10, 16, 5, 4];
  }

  lemma Load4()
    ensures TaskSet(SET4) && CommonMultiple(SET4, 12) && Load(SET4, 12) == 13
  {
    assert Weights(SET4, 12) == [3, 4, 6];
  }

  /** EDF schedules the three registered sets forever. */
  lemma EdfPassesRegisteredSets()
    ensures PassesForever(EDF, SET1) && PassesForever(EDF, SET2) && PassesForever(EDF, SET3)
  {
    hide PassesForever, Load, CommonMultiple, TaskSet;
    Load1();
    Load2();
    Load3();
    EdfUtilisation(SET1, 560);
    EdfUtilisation(SET2, 30);
    EdfUtilisation(SET3, 40);
  }

  /** Set 4, which is commented out as a failure for RMA, fails under every algorithm, within 37 checks. */
  lemma Set4FailsEverywhere(alg: Alg)
    ensures !Passes(alg, SET4, 37) && !PassesForever(alg, SET4)
  {
    Load4();
    assert Leads(SET4, 12) == [12, 12, 12];
    hide At, Check;
    PassingNeedsUtilisation(alg, SET4, 12);
    ForeverPasses(alg, SET4, 37);
  }

  // ---------- RMA ----------

  /** The test for one task, with the preferred work within w quanta worked out, task by task. */
  lemma WithinDelay(ts: seq<Task>, i: nat, w: nat, s: seq<int>, work: int)
    requires i < |ts| && 0 < ts[i].c && w + ts[i].c <= ts[i].d <= ts[i].p
    requires forall j :: 0 <= j < |ts| ==> ts[j].p > 0
    requires Interferences(ts, i, w) == s && Sum(s) == work
    requires forall j: nat :: j < |ts| ==> ts[j].c - 1 + work <= w || Higher(ts, j, i)
    ensures InTime(ts, i)
  {
    assert MeetsByDelay(ts, i, w);
  }

  lemma Delay1Of0()
    ensures InTime(SET1, 0)
  {
    WithinDelay(SET1, 0, 3, [0, 2, 0, 0, 0], 2);
  }

  lemma Delay1Of1()
    ensures InTime(SET1, 1)
  {
    WithinDelay(SET1, 1, 1, [0, 0, 0, 0, 0], 0);
  }

  lemma Delay1Of2()
    ensures InTime(SET1, 2)
  {
    WithinDelay(SET1, 2, 4, [1, 2, 0, 0, 0], 3);
  }

  lemma Delay1Of3()
    ensures InTime(SET1, 3)
  {
    WithinDelay(SET1, 3, 9, [2, 4, 2, 0, 0], 8);
  }

  lemma Delay1Of4()
    ensures InTime(SET1, 4)
  {
    WithinDelay(SET1, 4, 13, [2, 6, 2, 2, 0], 12);
  }

  lemma Delay2Of0()
    ensures InTime(SET2, 0)
  {
    WithinDelay(SET2, 0, 1, [0, 0, 0], 0);
  }

  lemma Delay2Of1()
    ensures InTime(SET2, 1)
  {
    WithinDelay(SET2, 1, 2, [1, 0, 0], 1);
  }

  lemma Delay2Of2()
    ensures InTime(SET2, 2)
  {
    WithinDelay(SET2, 2, 4, [2, 2, 0], 4);
  }

  lemma Delay3Of0()
    ensures InTime(SET3, 0)
  {
    WithinDelay(SET3, 0, 1, [0, 0, 0, 0], 0);
  }

  lemma Delay3Of1()
    ensures InTime(SET3, 1)
  {
    WithinDelay(SET3, 1, 2, [1, 0, 0, 0], 1);
  }

  lemma Delay3Of2()
    ensures InTime(SET3, 2)
  {
    WithinDelay(SET3, 2, 3, [1, 2, 0, 0], 3);
  }

  lemma Delay3Of3()
    ensures InTime(SET3, 3)
  {
    WithinDelay(SET3, 3, 7, [2, 4, 1, 0], 7);
  }

  /** RMA schedules the three registered sets forever, although a job once begun cannot be preempted. */
  lemma RmaPassesRegisteredSets()
    ensures PassesForever(RMA, SET1) && PassesForever(RMA, SET2) && PassesForever(RMA, SET3)
  {
    hide PassesForever, InTime, Load, CommonMultiple, TaskSet;
    Load1();
    Load2();
    Load3();
    Delay1Of0();
    Delay1Of1();
    Delay1Of2();
    Delay1Of3();
    Delay1Of4();
    Delay2Of0();
    Delay2Of1();
    Delay2Of2();
    Delay3Of0();
    Delay3Of1();
    Delay3Of2();
    Delay3Of3();
    RmaPassesByDelay(SET1);
    RmaPassesByDelay(SET2);
    RmaPassesByDelay(SET3);
  }

  // ---------- priorities ----------

  lemma SecondSetStarts()
    ensures At(EDF, SET2, 0).tasks == SET2 && AllReady(SET2)
    ensures Ready(SET2[0]) && Ready(SET2[1]) && Ready(SET2[2])
    ensures Before(EDF, SET2, 0, 1) && Before(EDF, SET2, 1, 2)
  {
    StartsAtZero(EDF, SET2);
    assert Restart(SET2) == SET2;
  }

  /** The first round of set 2 under EDF, in numbers: three tasks are queued, in registration order. */
  lemma SecondSetFirstPriorities()
    ensures Prios(EDF, SET2, 1) == [9, 8, 7]
  {
    hide At, Prios, Before, AllReady, ReadyFrom, Ready;
    SecondSetStarts();
    AllAreCollected(SET2, 0);
    PrioritiesFollowKeys(EDF, SET2, 0, 0, 1);
    PrioritiesFollowKeys(EDF, SET2, 0, 1, 2);
    PriosInRange(EDF, SET2, 1, 0);
    PriosInRange(EDF, SET2, 1, 2);
  }


  /** The best key, at the least index, is the head. */
  lemma HeadIs(alg: Alg, s: seq<Task>, h: nat)
    requires h < |s| && Ready(s[h])
    requires forall j :: 0 <= j < |s| && Ready(s[j]) ==> Key(alg, s[h]) <= Key(alg, s[j])
    requires forall j :: 0 <= j < h && Ready(s[j]) ==> Key(alg, s[h]) < Key(alg, s[j])
    ensures !Idle(s) && Head(alg, s) == h
  {
    HeadIsBest(alg, s);
  }

  /** In the first round of any test of set 1 five tasks are queued, and some of them share a priority. */
  lemma FirstSetSharesPriorities(alg: Alg)
    ensures |Queue(alg, At(alg, SET1, 0).tasks)| == 5
    ensures !DistinctInQueue(alg, At(alg, SET1, 0).tasks)
  {
    hide At, Queue, ReadyFrom, DistinctInQueue;
    StartsAtZero(alg, SET1);
    AllAreCollected(Restart(SET1), 0);
    QueueMembers(alg, Restart(SET1));
    QueuePriosAreDistinct(alg, Restart(SET1));
  }

  lemma QuantumStep(alg: Alg, s: seq<Task>, h: nat, s': seq<Task>)
    requires alg != RMA && h < |s| == |s'| && Ready(s[h])
    requires forall j :: 0 <= j < |s| && Ready(s[j]) ==> Key(alg, s[h]) <= Key(alg, s[j])
    requires forall j :: 0 <= j < h && Ready(s[j]) ==> Key(alg, s[h]) < Key(alg, s[j])
    requires forall i :: 0 <= i < |s| ==> s'[i] == if i == h then Charged(alg, s[h]) else Wait(s[i], 1)
    ensures !Idle(s) && Head(alg, s) == h && Step(alg, s) == s'
  {
    HeadIs(alg, s, h);
  }

  const T1 := [Task(1, 3, 3, 0, 2), Task(2, 5, 5, 0, -1), Task(1, 10, 10, 0, -1)]

  lemma SecondSetFirstStep()
    ensures !Idle(SET2) && Head(EDF, SET2) == 0 && Step(EDF, SET2) == T1
  {
    hide Step, Idle, Head;
    QuantumStep(EDF, SET2, 0, T1);
  }

  lemma SecondSetQueue()
    ensures ReadyFrom(T1, 0) == [1, 2] && !Ready(T1[0])
    ensures !Idle(T1) && Head(EDF, T1) == 1
  {
    assert ReadyFrom(T1, 2) == [2];
    assert ReadyFrom(T1, 1) == [1, 2];
    hide Head;
    HeadIs(EDF, T1, 1);
  }

  lemma SecondSetAtOne()
    ensures At(EDF, SET2, 1).tasks == T1 && At(EDF, SET2, 0).tasks == SET2
  {
    StartsAtZero(EDF, SET2);
    assert Restart(SET2) == SET2;
    hide At, Step;
    SecondSetFirstStep();
    RunFollowsStep(EDF, SET2, 0);
  }

  /**
   Set 2 under EDF has only two tasks queued in its second round, at different priorities; but the task that
   was served in the first is still at the priority that the new head is given.
   */
  lemma SecondSetSharesPriorities()
    ensures ReadyFrom(At(EDF, SET2, 1).tasks, 0) == [1, 2]
    ensures DistinctInQueue(EDF, At(EDF, SET2, 1).tasks)
    ensures Prios(EDF, SET2, 2)[0] == Prios(EDF, SET2, 2)[1] == BASE_PRIO - 1
    ensures !DistinctInRound(EDF, SET2, 1)
  {
    hide At, Prios, Queue, Head, ReadyFrom, Idle, Ready, DistinctInQueue;
    SecondSetAtOne();
    SecondSetFirstStep();
    SecondSetQueue();
    QueuePriosAreDistinct(EDF, T1);
    QueuedIsReady(EDF, T1, 0);
    PriosNext(EDF, SET2, 1, 0);
    HeadHasTopPrio(EDF, SET2, 0, 0);
    HeadHasTopPrio(EDF, SET2, 1, 1);
  }

  // ---------- SCT is not optimal ----------

  const S1 := [Task(1, 4, 4, 0, 3), Task(2, 5, 5, 0, -1), Task(1, 8, 8, 0, -1), Task(1, 10, 10, 0, -1)]
  const S2 := [Task(1, 4, 4, 0, 2), Task(2, 5, 5, 0, -2), Task(1, 8, 8, 0, 6), Task(1, 10, 10, 0, -2)]
  const S3 := [Task(1, 4, 4, 0, 1), Task(2, 5, 5, 0, -3), Task(1, 8, 8, 0, 5), Task(1, 10, 10, 0, 7)]
  const S4 := [Task(1, 4, 4, 0, 0), Task(2, 5, 5, 1, -4), Task(1, 8, 8, 0, 4), Task(1, 10, 10, 0, 6)]

  lemma Step1()
    ensures Step(SCT, SET3) == S1
  {
    hide Step, Idle, Head;
    QuantumStep(SCT, SET3, 0, S1);
  }

  lemma Step2()
    ensures Step(SCT, S1) == S2
  {
    hide Step, Idle, Head;
    QuantumStep(SCT, S1, 2, S2);
  }

  lemma Step3()
    ensures Step(SCT, S2) == S3
  {
    hide Step, Idle, Head;
    QuantumStep(SCT, S2, 3, S3);
  }

  lemma Step4()
    ensures Step(SCT, S3) == S4
  {
    hide Step, Idle, Head;
    QuantumStep(SCT, S3, 1, S4);
  }

  lemma AfterFourSteps()
    ensures At(SCT, SET3, 4).tasks == S4
  {
    StartsAtZero(SCT, SET3);
    assert Restart(SET3) == SET3;
    hide At, Step;
    Step1();
    Step2();
    Step3();
    Step4();
    RunFollowsStep(SCT, SET3, 0);
    RunFollowsStep(SCT, SET3, 1);
    RunFollowsStep(SCT, SET3, 2);
    RunFollowsStep(SCT, SET3, 3);
  }

  lemma FlaggedFails(alg: Alg, s: seq<Task>, i: nat)
    requires i < |s| && Ready(s[i]) && i != Head(alg, s)
    requires s[i].CompletionTime() >= s[i].RemainingTime()
    ensures !Check(alg, s)
  {
    CheckMeans(alg, s);
  }

  /** SCT rejects set 3 at its fifth check, although EDF schedules it forever. */
  lemma SctIsNotOptimal()
    ensures PassesForever(EDF, SET3)
    ensures !Check(SCT, At(SCT, SET3, 4).tasks)
  {
    hide PassesForever, Check, At, Idle, Head;
    EdfPassesRegisteredSets();
    AfterFourSteps();
    HeadIs(SCT, S4, 0);
    FlaggedFails(SCT, S4, 1);
  }
}
