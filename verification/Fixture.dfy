/**
 fixt.c: every algorithm is run on every task set. Each verdict is the one the engine gives for
 that pair alone, whatever was run before.
 */
module Fixture {
  import opened Tasks
  import opened Engine
  import opened Priorities
  import opened Deadlines
  import opened Feasibility
  import opened Utilisation
  import opened Hyperperiod
  import opened TaskList
  import opened ListSort
  import opened Algorithm

  /** struct fixt_set: the nodes of a task set, on their own list. */
  class FixtSet {
    var head: TaskNode?
    ghost var nodes: seq<TaskNode>

    constructor ()
      ensures TsList(head, nodes) && nodes == []
    {
      head := null;
      nodes := [];
    }

    /** The append of fixt_set_new. */
    method Add(task: TaskNode)
      requires TsList(head, nodes) && task !in nodes
      modifies this, nodes`tsPrev, nodes`tsNext, task`tsPrev, task`tsNext
      ensures nodes == old(nodes) + [task] && TsList(head, nodes)
    {
      head := AppendTs(head, task, nodes);
      nodes := nodes + [task];
    }
  }

  lemma TsFirst(head: TaskNode?, s: seq<TaskNode>)
    requires TsList(head, s)
    ensures head == Nth(s, 0) && Distinct(s)
  {
  }

  lemma TsNext(head: TaskNode?, s: seq<TaskNode>, i: nat)
    requires TsList(head, s) && i < |s|
    ensures s[i].tsNext == Nth(s, i + 1)
  {
  }

  /** prime_algo: the nodes of the set become the algorithm's tasks, in the same order, all started afresh. */
  method PrimeAlgo(algo: Algo, set0: FixtSet)
    requires TsList(set0.head, set0.nodes)
    requires algo.tasks == [] && AtList(algo.tasksHead, algo.tasks)
    modifies algo`tasksHead, algo`tasks, set0.nodes`atPrev, set0.nodes`atNext, set0.nodes`a, set0.nodes`r, set0.nodes`prio
    ensures algo.tasks == set0.nodes && AtList(algo.tasksHead, algo.tasks)
    ensures Shown(algo.tasks, Blank(set0.nodes)) && PriosShown(algo.tasks, FirstPrios(|set0.nodes|))
  {
    hide AtList, Shown, TsList;
    ghost var s, i := set0.nodes, 0;
    var elt := set0.head;
    TsFirst(elt, s);
    while elt != null
      invariant i <= |s| && elt == Nth(s, i)
      invariant algo.tasks == s[..i] && AtList(algo.tasksHead, algo.tasks)
      decreases |s| - i
    {
      TsNext(set0.head, s, i);
      algo.AddTask(elt);
      elt := elt.tsNext;
      i := i + 1;
    }
    algo.Init();
  }

  /** The unguarded run of an algorithm on the tasks of a list. */
  ghost function RunOf(algo: Algo, s: seq<TaskNode>, n: nat): seq<Task> {
    At(algo.kind, Blank(s), n).tasks
  }

  /** The priorities its threads have after n rounds. */
  ghost function PriosOf(algo: Algo, s: seq<TaskNode>, n: nat): seq<int> {
    Prios(algo.kind, Blank(s), n)
  }

  lemma RunStarts(algo: Algo, s: seq<TaskNode>)
    ensures RunOf(algo, s, 0) == Blank(s)
    ensures PriosOf(algo, s, 0) == FirstPrios(|s|)
  {
  }

  lemma RunSteps(algo: Algo, s: seq<TaskNode>, n: nat)
    ensures RunOf(algo, s, n + 1) == Step(algo.kind, RunOf(algo, s, n))
    ensures PriosOf(algo, s, n + 1) == Reprioritised(Queue(algo.kind, RunOf(algo, s, n)), PriosOf(algo, s, n))
  {
    RunFollowsStep(algo.kind, Blank(s), n);
  }

  /**
   run_test_on: schedule and run until a check fails or the horizon is reached (the source's
   horizon is a wall-clock time), then halt; rounds counts the rounds that were run.
   */
  method RunTestOn(algo: Algo, horizon: nat) returns (ghost rounds: nat)
    requires horizon > 0
    requires AtList(algo.tasksHead, algo.tasks) && Shown(algo.tasks, Blank(algo.tasks))
    requires PriosShown(algo.tasks, FirstPrios(|algo.tasks|))
    modifies algo`schedulable, algo`tasksHead, algo`queueHead, algo`tasks, algo`queue
    modifies algo.tasks`aqPrev, algo.tasks`aqNext, algo.tasks`atPrev, algo.tasks`atNext
    modifies algo.tasks`a, algo.tasks`r, algo.tasks`prio
    ensures algo.tasks == [] && AtList(algo.tasksHead, algo.tasks)
    ensures algo.schedulable <==> Passes(algo.kind, Blank(old(algo.tasks)), horizon)
    ensures rounds <= horizon && Passes(algo.kind, Blank(old(algo.tasks)), rounds)
    ensures algo.schedulable <==> rounds == horizon
    ensures PriosShown(old(algo.tasks), Prios(algo.kind, Blank(old(algo.tasks)), rounds))
  {
    hide AtList, Shown, RunOf, Check, QueueList, Step, Passes, Blank, PriosShown, Reprioritised, FirstPrios, Prios;
    ghost var s := algo.tasks;
    var n := 0;
    var going := true;
    RunStarts(algo, s);
    PassesNone(algo.kind, Blank(s));
    while going
      invariant algo.tasks == s && AtList(algo.tasksHead, s) && n <= horizon
      invariant Passes(algo.kind, Blank(s), n) && PriosShown(s, PriosOf(algo, s, n))
      invariant going ==> n < horizon && Shown(s, RunOf(algo, s, n))
      invariant !going ==> algo.schedulable == Passes(algo.kind, Blank(s), horizon) == (n == horizon)
      decreases going, horizon - n
    {
      ghost var v := RunOf(algo, s, n);
      algo.Schedule(v);
      PassesNext(algo, s, n, horizon);
      if algo.schedulable {
        QueueFirst(algo.kind, algo.queueHead, algo.queue, s, v);
        algo.Run(v, PriosOf(algo, s, n));
        RunSteps(algo, s, n);
        n := n + 1;
        going := n < horizon;
      } else {
        going := false;
      }
    }
    rounds := n;
    algo.Halt();
  }

  lemma PassesNone(alg: Alg, ts: seq<Task>)
    ensures Passes(alg, ts, 0)
  {
  }

  lemma PassesNext(algo: Algo, s: seq<TaskNode>, n: nat, horizon: nat)
    requires Passes(algo.kind, Blank(s), n) && n < horizon
    ensures Check(algo.kind, RunOf(algo, s, n)) ==> Passes(algo.kind, Blank(s), n + 1)
    ensures !Check(algo.kind, RunOf(algo, s, n)) ==> !Passes(algo.kind, Blank(s), horizon)
  {
  }

  // ---------- the fixture ----------

  /** Every set's list is well formed, with nodes among the given ones. */
  ghost predicate SetsIntact(sets: seq<FixtSet>, nodes: set<TaskNode>)
    reads sets, nodes`tsPrev, nodes`tsNext
  {
    forall i :: 0 <= i < |sets| ==> Within(sets[i].nodes, nodes) && TsList(sets[i].head, sets[i].nodes)
  }

  /** No algorithm holds a task. */
  ghost predicate NoTasks(algos: seq<Algo>)
    reads algos`tasks, algos`tasksHead
  {
    forall i :: 0 <= i < |algos| ==> algos[i].tasks == [] && AtList(algos[i].tasksHead, [])
  }

  ghost predicate Verdict(algo: Algo, s: seq<TaskNode>, horizon: nat) {
    Passes(algo.kind, Blank(s), horizon)
  }

  lemma SetIsIntact(sets: seq<FixtSet>, nodes: set<TaskNode>, set0: FixtSet)
    requires SetsIntact(sets, nodes) && set0 in sets
    ensures TsList(set0.head, set0.nodes) && forall n :: n in set0.nodes ==> n in nodes
  {
  }

  lemma HasNoTasks(algos: seq<Algo>)
    requires NoTasks(algos)
    ensures forall algo :: algo in algos ==> algo.tasks == [] && AtList(algo.tasksHead, [])
  {
  }

  lemma NoTasksAgain(algos: seq<Algo>)
    requires forall algo :: algo in algos ==> algo.tasks == [] && AtList(algo.tasksHead, [])
    ensures NoTasks(algos)
  {
  }

  /** One test: afterwards everything is as before but for the verdict. */
  method TestPair(algo: Algo, set0: FixtSet, horizon: nat, ghost algos: seq<Algo>, ghost sets: seq<FixtSet>, ghost nodes: set<TaskNode>)
    returns (pass: bool)
    requires horizon > 0 && SetsIntact(sets, nodes) && NoTasks(algos) && algo in algos && set0 in sets
    modifies algo, nodes`aqPrev, nodes`aqNext, nodes`atPrev, nodes`atNext, nodes`a, nodes`r, nodes`prio
    ensures SetsIntact(sets, nodes) && NoTasks(algos)
    ensures pass <==> Verdict(algo, set0.nodes, horizon)
  {
    hide TsList, AtList, Shown, PriosShown, FirstPrios, Prios, Passes, Blank, SetsIntact, NoTasks, Within;
    SetIsIntact(sets, nodes, set0);
    HasNoTasks(algos);
    PrimeAlgo(algo, set0);
    ghost var rounds := RunTestOn(algo, horizon);
    pass := algo.schedulable;
    NoTasksAgain(algos);
  }

  /** fixt_test: verdicts[a][s] is the outcome of algorithm a on set s. */
  method FixtTest(algos: seq<Algo>, sets: seq<FixtSet>, horizon: nat, ghost nodes: set<TaskNode>)
    returns (verdicts: seq<seq<bool>>)
    requires horizon > 0 && SetsIntact(sets, nodes) && NoTasks(algos)
    modifies algos, nodes`aqPrev, nodes`aqNext, nodes`atPrev, nodes`atNext, nodes`a, nodes`r, nodes`prio
    ensures SetsIntact(sets, nodes) && NoTasks(algos)
    ensures |verdicts| == |algos|
    ensures forall a :: 0 <= a < |algos| ==> |verdicts[a]| == |sets|
    ensures forall a, s :: 0 <= a < |algos| && 0 <= s < |sets| ==>
              verdicts[a][s] == Verdict(algos[a], sets[s].nodes, horizon)
  {
    hide SetsIntact, NoTasks, Verdict;
    verdicts := [];
    for a := 0 to |algos|
      invariant SetsIntact(sets, nodes) && NoTasks(algos) && |verdicts| == a
      invariant forall b :: 0 <= b < a ==> |verdicts[b]| == |sets|
      invariant forall b, s :: 0 <= b < a && 0 <= s < |sets| ==>
                  verdicts[b][s] == Verdict(algos[b], sets[s].nodes, horizon)
    {
      var row := [];
      for i := 0 to |sets|
        invariant SetsIntact(sets, nodes) && NoTasks(algos) && |row| == i
        invariant forall s :: 0 <= s < i ==> row[s] == Verdict(algos[a], sets[s].nodes, horizon)
      {
        var pass := TestPair(algos[a], sets[i], horizon, algos, sets, nodes);
        row := row + [pass];
      }
      verdicts := verdicts + [row];
    }
  }

  /**
   With a horizon of H + 1 rounds, H a hyperperiod, the verdict is whether every job of every task, forever,
   meets its deadline under the algorithm.
   */
  lemma VerdictMeans(algo: Algo, s: seq<TaskNode>, h: nat)
    requires TaskSet(Blank(s)) && CommonMultiple(Blank(s), h)
    ensures Verdict(algo, s, h + 1) <==> EveryJobOnTime(algo.kind, Blank(s))
  {
    hide Passes, PassesForever, EveryJobOnTime, Blank, TaskSet, CommonMultiple;
    VerdictAtHyperperiod(algo.kind, Blank(s), h);
    CheckIsExact(algo.kind, Blank(s));
  }

  /** With the same horizon EDF's verdict is whether the demand of the set fits every interval. */
  lemma EdfVerdict(algo: Algo, s: seq<TaskNode>, h: nat)
    requires algo.kind == EDF && TaskSet(Blank(s)) && CommonMultiple(Blank(s), h)
    ensures Verdict(algo, s, h + 1) <==> DemandFits(Blank(s))
    ensures (forall i :: 0 <= i < |s| ==> s[i].d == s[i].p) ==>
              (Verdict(algo, s, h + 1) <==> Load(Blank(s), h) <= h)
  {
    hide Passes, PassesForever, DemandFits, Load;
    VerdictAtHyperperiod(EDF, Blank(s), h);
    EdfIsExact(Blank(s));
    if forall i :: 0 <= i < |s| ==> s[i].d == s[i].p {
      EdfUtilisation(Blank(s), h);
    }
  }
}
