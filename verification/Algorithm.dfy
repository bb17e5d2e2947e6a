/**
 struct fixt_algo: the engine in place, on the task nodes and their lists. Every method is tied
 to the function of Engine.dfy it computes.
 */
module Algorithm {
  import opened Sorting
  import opened Tasks
  import opened Engine
  import opened Priorities
  import opened TaskList
  import opened ListSort

  /** The nodes at the positions q of s. */
  function Pick(s: seq<TaskNode>, q: seq<nat>): (t: seq<TaskNode>)
    requires forall m :: 0 <= m < |q| ==> q[m] < |s|
    ensures |t| == |q|
    ensures forall m :: 0 <= m < |q| ==> t[m] == s[q[m]]
  {
    seq(|q|, m requires 0 <= m < |q| => s[q[m]])
  }

  function Blank(s: seq<TaskNode>): (v: seq<Task>)
    ensures |v| == |s|
    ensures forall i :: 0 <= i < |s| ==> v[i] == Task(s[i].c, s[i].p, s[i].d, 0, 0)
  {
    seq(|s|, i requires 0 <= i < |s| => Task(s[i].c, s[i].p, s[i].d, 0, 0))
  }

  /** v are the fields of the nodes. */
  ghost predicate Shown(tasks: seq<TaskNode>, v: seq<Task>)
    reads tasks`a, tasks`r
  {
    |v| == |tasks| && forall i :: 0 <= i < |v| ==> tasks[i].View() == v[i]
  }

  lemma ShownAt(tasks: seq<TaskNode>, v: seq<Task>, i: nat)
    requires Shown(tasks, v) && i < |tasks|
    ensures |v| == |tasks| && v[i] == tasks[i].View()
  {
  }

  lemma ShownLength(tasks: seq<TaskNode>, v: seq<Task>)
    requires Shown(tasks, v)
    ensures |v| == |tasks|
  {
  }

  // ---------- walking the lists ----------

  ghost function Nth(s: seq<TaskNode>, i: nat): TaskNode? {
    if i < |s| then s[i] else null
  }

  lemma AtFirst(head: TaskNode?, s: seq<TaskNode>)
    requires AtList(head, s)
    ensures head == Nth(s, 0) && Distinct(s)
  {
  }

  lemma AtNext(head: TaskNode?, s: seq<TaskNode>, i: nat)
    requires AtList(head, s) && i < |s|
    ensures s[i].atNext == Nth(s, i + 1)
  {
  }

  lemma AqFirst(head: TaskNode?, s: seq<TaskNode>)
    requires AqList(head, s)
    ensures head == Nth(s, 0)
  {
  }

  lemma AqNext(head: TaskNode?, s: seq<TaskNode>, i: nat)
    requires AqList(head, s) && i < |s|
    ensures s[i].aqNext == Nth(s, i + 1)
  {
  }

  // ---------- the queue is the sorted ready list ----------

  ghost function IndexOf(s: seq<TaskNode>, n: TaskNode): (i: nat)
    requires n in s
    ensures i < |s| && s[i] == n
  {
    var i :| 0 <= i < |s| && s[i] == n;
    i
  }

  /** The fields of the nodes of s, as a function of the node. */
  ghost function ViewOf(s: seq<TaskNode>, v: seq<Task>): TaskNode -> Task
    requires |v| == |s|
  {
    (n: TaskNode) => if n in s then v[IndexOf(s, n)] else Task(0, 0, 0, 0, 0)
  }

  lemma ViewOfShows(s: seq<TaskNode>, v: seq<Task>, all: set<TaskNode>)
    requires Distinct(s) && Shown(s, v) && forall n :: n in all <==> n in s
    ensures Shows(ViewOf(s, v), all)
    ensures forall i :: 0 <= i < |s| ==> v[i] == ViewOf(s, v)(s[i])
  {
  }

  lemma PickIsWithin(s: seq<TaskNode>, q: seq<nat>, all: set<TaskNode>)
    requires forall m :: 0 <= m < |q| ==> q[m] < |s|
    requires forall n :: n in all <==> n in s
    ensures Within(Pick(s, q), all)
  {
  }

  lemma CompareIsComparator(alg: Alg)
    ensures Comparator((l, r) => Compare(alg, l, r))
    ensures forall l, r :: Compare(RMA, l, r) == l.p - r.p
    ensures forall l, r :: Compare(EDF, l, r) == (l.d + l.r) - (r.d + r.r)
    ensures forall l, r :: Compare(SCT, l, r) == (l.c - l.a) - (r.c - r.a)
  {
  }

  lemma QueueInRange(alg: Alg, v: seq<Task>)
    ensures forall m :: 0 <= m < |ReadyFrom(v, 0)| ==> ReadyFrom(v, 0)[m] < |v|
    ensures forall m :: 0 <= m < |Queue(alg, v)| ==> Queue(alg, v)[m] < |v|
  {
    assert forall m :: 0 <= m < |ReadyFrom(v, 0)| ==> ReadyFrom(v, 0)[m] in ReadyFrom(v, 0);
    QueueMembers(alg, v);
  }

  lemma PickIsMap(s: seq<TaskNode>, q: seq<nat>, f: nat -> TaskNode)
    requires forall m :: 0 <= m < |q| ==> q[m] < |s| && f(q[m]) == s[q[m]]
    ensures Map(f, q) == Pick(s, q)
  {
  }

  lemma OrdersAgree(alg: Alg, s: seq<TaskNode>, v: seq<Task>, view: TaskNode -> Task, cmp: (Task, Task) -> int, f: nat -> TaskNode)
    requires |v| == |s| && forall i :: 0 <= i < |s| ==> v[i] == view(s[i]) && f(i) == s[i]
    requires forall l, r :: cmp(l, r) == Compare(alg, l, r)
    ensures Agree(Order(alg, v), NodeOrder(cmp, view), f, ReadyFrom(v, 0))
  {
  }

  lemma QueueIsSort(alg: Alg, s: seq<TaskNode>, v: seq<Task>, view: TaskNode -> Task, cmp: (Task, Task) -> int)
    requires |v| == |s| && forall i :: 0 <= i < |s| ==> v[i] == view(s[i])
    requires forall l, r :: cmp(l, r) == Compare(alg, l, r)
    ensures forall m :: 0 <= m < |ReadyFrom(v, 0)| ==> ReadyFrom(v, 0)[m] < |s|
    ensures forall m :: 0 <= m < |Queue(alg, v)| ==> Queue(alg, v)[m] < |s|
    ensures StableSort(NodeOrder(cmp, view), Pick(s, ReadyFrom(v, 0))) == Pick(s, Queue(alg, v))
  {
    hide StableSort, NodeOrder, Order, Agree, Map, Pick, Compare;
    QueueInRange(alg, v);
    if s == [] {
      NothingQueued(alg, v, s, NodeOrder(cmp, view));
    } else {
      var f := (i: nat) => if i < |s| then s[i] else s[0];
      OrdersAgree(alg, s, v, view, cmp, f);
      SortMaps(Order(alg, v), NodeOrder(cmp, view), f, ReadyFrom(v, 0));
      PickIsMap(s, ReadyFrom(v, 0), f);
      PickIsMap(s, Queue(alg, v), f);
    }
  }

  lemma NothingQueued(alg: Alg, v: seq<Task>, s: seq<TaskNode>, le: (TaskNode, TaskNode) -> bool)
    requires v == [] && s == []
    ensures ReadyFrom(v, 0) == [] && Queue(alg, v) == []
    ensures StableSort(le, Pick(s, [])) == Pick(s, [])
  {
  }

  // ---------- collecting the ready tasks ----------

  /** queue holds the ready ones among the first i tasks. */
  ghost predicate Collected(v: seq<Task>, s: seq<TaskNode>, i: nat, queue: seq<TaskNode>, q: seq<nat>) {
    && i <= |s| == |v|
    && (forall m :: 0 <= m < |q| ==> q[m] < i)
    && q + ReadyFrom(v, i) == ReadyFrom(v, 0)
    && queue == Pick(s, q)
  }

  lemma CollectionStarts(v: seq<Task>, s: seq<TaskNode>)
    requires |v| == |s|
    ensures Collected(v, s, 0, [], [])
  {
  }

  lemma ReadyFromOpens(v: seq<Task>, i: nat)
    requires i < |v|
    ensures ReadyFrom(v, i) == (if Ready(v[i]) then [i] else []) + ReadyFrom(v, i + 1)
  {
  }

  lemma PickOneMore(s: seq<TaskNode>, q: seq<nat>, i: nat)
    requires i < |s| && Distinct(s) && forall m :: 0 <= m < |q| ==> q[m] < i
    ensures Pick(s, q + [i]) == Pick(s, q) + [s[i]] && s[i] !in Pick(s, q)
    ensures forall m :: 0 <= m < |q| ==> Pick(s, q)[m] in s
  {
  }

  lemma CollectionGrows(v: seq<Task>, s: seq<TaskNode>, i: nat, queue: seq<TaskNode>, q: seq<nat>)
    requires Collected(v, s, i, queue, q) && i < |s| && Distinct(s)
    ensures Ready(v[i]) ==> s[i] !in queue && Collected(v, s, i + 1, queue + [s[i]], q + [i])
    ensures !Ready(v[i]) ==> Collected(v, s, i + 1, queue, q)
    ensures forall m :: 0 <= m < |queue| ==> queue[m] in s
  {
    hide ReadyFrom, Ready, Pick, Distinct;
    PickOneMore(s, q, i);
    ReadyFromOpens(v, i);
    assert q + ([i] + ReadyFrom(v, i + 1)) == q + [i] + ReadyFrom(v, i + 1);
    assert q + ([] + ReadyFrom(v, i + 1)) == q + ReadyFrom(v, i + 1);
  }

  lemma CollectionEnds(v: seq<Task>, s: seq<TaskNode>, queue: seq<TaskNode>, q: seq<nat>)
    requires Collected(v, s, |s|, queue, q)
    ensures forall m :: 0 <= m < |ReadyFrom(v, 0)| ==> ReadyFrom(v, 0)[m] < |s|
    ensures queue == Pick(s, ReadyFrom(v, 0))
  {
    assert ReadyFrom(v, |s|) == [];
    assert q == ReadyFrom(v, 0);
  }

  // ---------- the queue list ----------

  /** The list at head is the queue of the engine for the tasks, whose fields are v. */
  ghost predicate QueueList(alg: Alg, head: TaskNode?, queue: seq<TaskNode>, tasks: seq<TaskNode>, v: seq<Task>)
    reads queue`aqPrev, queue`aqNext
  {
    && |v| == |tasks|
    && (QueueInRange(alg, v); queue == Pick(tasks, Queue(alg, v)))
    && AqList(head, queue)
  }

  lemma QueueFirst(alg: Alg, head: TaskNode?, queue: seq<TaskNode>, tasks: seq<TaskNode>, v: seq<Task>)
    requires QueueList(alg, head, queue, tasks, v)
    ensures |queue| == |Queue(alg, v)| && head == Nth(queue, 0)
    ensures forall m :: 0 <= m < |queue| ==> queue[m] in tasks
  {
    QueueInRange(alg, v);
  }

  /** The list is empty just when nothing is ready, and otherwise starts with the head of the engine. */
  lemma QueueHead(alg: Alg, head: TaskNode?, queue: seq<TaskNode>, tasks: seq<TaskNode>, v: seq<Task>)
    requires QueueList(alg, head, queue, tasks, v)
    ensures head == null <==> Idle(v)
    ensures head != null ==> head == tasks[Head(alg, v)]
  {
    QueueMembers(alg, v);
    if !Idle(v) {
      var i :| 0 <= i < |v| && Ready(v[i]);
      assert i in Queue(alg, v);
    }
    assert Queue(alg, v) != [] ==> Queue(alg, v)[0] in Queue(alg, v);
  }

  lemma QueueNext(alg: Alg, head: TaskNode?, queue: seq<TaskNode>, tasks: seq<TaskNode>, v: seq<Task>, m: nat)
    requires QueueList(alg, head, queue, tasks, v) && Shown(tasks, v) && m < |queue|
    ensures queue[m].aqNext == Nth(queue, m + 1)
    ensures queue[m] == head <==> m == 0
    ensures m < |Queue(alg, v)| && Queue(alg, v)[m] < |v| && queue[m].View() == v[Queue(alg, v)[m]]
  {
    QueueInRange(alg, v);
  }

  /** The loop of fixt_algo_schedule over the queue: only the head may use up its remaining time. */
  method CheckQueue(ghost alg: Alg, head: TaskNode?, ghost queue: seq<TaskNode>, ghost tasks: seq<TaskNode>, ghost v: seq<Task>)
    returns (ok: bool)
    requires QueueList(alg, head, queue, tasks, v) && Shown(tasks, v)
    ensures ok == Check(alg, v)
  {
    hide QueueList, Shown, PrefixOk, Check, Queue;
    ok := true;
    ghost var m: nat := 0;
    var elt := head;
    QueueFirst(alg, head, queue, tasks, v);
    PrefixEmpty(alg, v);
    while elt != null
      invariant m <= |queue| == |Queue(alg, v)| && elt == Nth(queue, m)
      invariant ok == PrefixOk(alg, v, m)
      decreases |queue| - m
    {
      QueueNext(alg, head, queue, tasks, v, m);
      PrefixNext(alg, v, m);
      var avail := elt.d + elt.r;
      if elt == head {
        ok := ok && elt.c - elt.a <= avail;
      } else {
        ok := ok && elt.c - elt.a < avail;
      }
      elt := elt.aqNext;
      m := m + 1;
    }
    PrefixAll(alg, v);
  }

  // ---------- priorities ----------

  /** The threads of s have the priorities pr. */
  ghost predicate PriosShown(s: seq<TaskNode>, pr: seq<int>)
    reads s`prio
  {
    |pr| == |s| && forall i :: 0 <= i < |s| ==> s[i].prio == pr[i]
  }

  method Reprioritise(head: TaskNode?, ghost queue: seq<TaskNode>)
    requires AqList(head, queue)
    modifies queue`prio
    ensures forall m :: 0 <= m < |queue| ==> queue[m].prio == PrioAt(m) == if m == 0 then 9 else if m == 1 then 8 else 7
  {
    var prio := BASE_PRIO;
    ghost var m := 0;
    var elt := head;
    AqFirst(head, queue);
    while elt != null
      invariant m <= |queue| && elt == Nth(queue, m) && prio == BASE_PRIO - m
      invariant forall j :: 0 <= j < m ==> queue[j].prio == PrioAt(j)
      decreases |queue| - m
    {
      AqNext(head, queue, m);
      prio := prio - 1;
      elt.prio := if prio > MIN_PRIO then prio else MIN_PRIO;
      elt := elt.aqNext;
      m := m + 1;
    }
  }

  /** Which threads the loop reaches, and what it gives them, by task. */
  lemma QueuedPrios(alg: Alg, head: TaskNode?, queue: seq<TaskNode>, tasks: seq<TaskNode>, v: seq<Task>)
    requires QueueList(alg, head, queue, tasks, v) && Distinct(tasks)
    ensures forall i: nat :: i < |tasks| ==> (tasks[i] in queue <==> i in Queue(alg, v))
    ensures forall i: nat :: i < |tasks| && i in Queue(alg, v) ==>
              PositionIn(Queue(alg, v), i) < |queue| && queue[PositionIn(Queue(alg, v), i)] == tasks[i]
  {
    QueueInRange(alg, v);
    var q := Queue(alg, v);
    forall i: nat | i < |tasks|
      ensures tasks[i] in queue <==> i in q
    {
      if tasks[i] in queue {
        var m :| 0 <= m < |queue| && queue[m] == tasks[i];
        assert q[m] in q && tasks[q[m]] == tasks[i];
      }
      if i in q {
        assert queue[PositionIn(q, i)] == tasks[i];
      }
    }
  }

  /** Reprioritise, by task. */
  method SetPrios(ghost alg: Alg, head: TaskNode?, ghost queue: seq<TaskNode>,
                  ghost tasks: seq<TaskNode>, ghost v: seq<Task>, ghost pr: seq<int>)
    requires QueueList(alg, head, queue, tasks, v) && Distinct(tasks) && PriosShown(tasks, pr)
    modifies queue`prio
    ensures PriosShown(tasks, Reprioritised(Queue(alg, v), pr))
  {
    QueuedPrios(alg, head, queue, tasks, v);
    hide Queue, AqList, Distinct;
    Reprioritise(head, queue);
  }

  lemma NothingQueuedKeepsPrios(alg: Alg, queue: seq<TaskNode>, v: seq<Task>, pr: seq<int>)
    requires queue == [] && |queue| == |Queue(alg, v)|
    ensures Reprioritised(Queue(alg, v), pr) == pr
  {
  }

  // ---------- recalculation ----------

  lemma MinROfNext(v: seq<Task>, i: nat)
    requires i < |v|
    ensures Engine.MinR(v[..i + 1]) == Min(Engine.MinR(v[..i]), v[i].r)
  {
    assert v[..i + 1][..i] == v[..i];
  }

  /** fixt_algo_min_r */
  method MinRelease(head: TaskNode?, ghost tasks: seq<TaskNode>, ghost v: seq<Task>) returns (r: int)
    requires AtList(head, tasks) && Shown(tasks, v)
    ensures r == Engine.MinR(v)
  {
    hide AtList, Engine.MinR;
    r := INT_MAX;
    ghost var i := 0;
    var elt := head;
    AtFirst(head, tasks);
    MinROfNone(v);
    while elt != null
      invariant i <= |tasks| && elt == Nth(tasks, i)
      invariant r == Engine.MinR(v[..i])
      decreases |tasks| - i
    {
      AtNext(head, tasks, i);
      MinROfNext(v, i);
      r := Min(r, elt.r);
      elt := elt.atNext;
      i := i + 1;
    }
    assert v[..|v|] == v;
  }

  lemma MinROfNone(v: seq<Task>)
    ensures Engine.MinR(v[..0]) == INT_MAX
  {
  }

  /** All tasks but the h-th wait; h == |v| for none. */
  function ShiftBut(v: seq<Task>, h: nat, delta: int): (w: seq<Task>)
    ensures |w| == |v|
    ensures forall i :: 0 <= i < |v| ==> w[i] == if i == h then v[i] else Wait(v[i], delta)
  {
    seq(|v|, i requires 0 <= i < |v| => if i == h then v[i] else Wait(v[i], delta))
  }

  lemma StepShifts(alg: Alg, v: seq<Task>)
    ensures Idle(v) ==> Step(alg, v) == ShiftBut(v, |v|, Engine.MinR(v))
    ensures !Idle(v) ==> var h := Head(alg, v);
                         Step(alg, v) == ShiftBut(v[h := Charged(alg, v[h])], h, Delta(alg, v[h]))
  {
  }

  /** The loop that ends every al_recalc: all tasks but the head wait. */
  method ShiftOthers(first: TaskNode?, head: TaskNode?, delta: int, ghost tasks: seq<TaskNode>, ghost v: seq<Task>, ghost h: nat)
    requires AtList(first, tasks) && Shown(tasks, v) && head == Nth(tasks, h)
    modifies tasks`r
    ensures Shown(tasks, ShiftBut(v, h, delta))
  {
    hide AtList;
    ghost var i := 0;
    var elt := first;
    AtFirst(first, tasks);
    while elt != null
      invariant i <= |tasks| && elt == Nth(tasks, i)
      invariant forall j :: 0 <= j < i ==> tasks[j].View() == ShiftBut(v, h, delta)[j]
      invariant forall j :: i <= j < |tasks| ==> tasks[j].View() == v[j]
      decreases |tasks| - i
    {
      AtNext(first, tasks, i);
      if elt != head {
        elt.r := elt.r - delta;
      }
      elt := elt.atNext;
      i := i + 1;
    }
  }

  /** EDF and SCT on the head: it has run for one more quantum. */
  method ChargeQuantum(head: TaskNode, alg: Alg, ghost tasks: seq<TaskNode>, ghost v: seq<Task>, ghost h: nat)
    requires alg != RMA && Distinct(tasks) && Shown(tasks, v) && h < |tasks| && head == tasks[h]
    modifies head`a, head`r
    ensures Shown(tasks, v[h := Charged(alg, v[h])])
  {
    var delta := 1;
    head.a := head.a + delta;
    if head.c - head.a > 0 {
      head.r := head.r - delta;
    } else {
      head.r := head.p - delta + head.r;
      head.a := 0;
    }
  }

  /** RMA on the head: it has run its whole job. */
  method ChargeJob(head: TaskNode, ghost tasks: seq<TaskNode>, ghost v: seq<Task>, ghost h: nat)
    requires Distinct(tasks) && Shown(tasks, v) && h < |tasks| && head == tasks[h]
    modifies head`r
    ensures Shown(tasks, v[h := Charged(RMA, v[h])])
  {
    head.r := head.p - head.c + head.r;
  }

  /** al_recalc of the three algorithms; EDF and SCT share theirs line for line. */
  method Recalc(alg: Alg, first: TaskNode?, head: TaskNode?, ghost tasks: seq<TaskNode>, ghost v: seq<Task>)
    requires AtList(first, tasks) && Shown(tasks, v)
    requires head == null <==> Idle(v)
    requires head != null ==> head == tasks[Head(alg, v)]
    modifies tasks`a, tasks`r
    ensures Shown(tasks, Step(alg, v))
  {
    AtFirst(first, tasks);
    ShownLength(tasks, v);
    StepShifts(alg, v);
    hide AtList, Distinct, Shown, Step, Idle, Head, Charged, ShiftBut;
    if head != null {
      ghost var h := Head(alg, v);
      var delta := if alg == RMA then head.c else 1;
      assert delta == Delta(alg, v[h]) by { ShownAt(tasks, v, h); }
      if alg == RMA {
        ChargeJob(head, tasks, v, h);
      } else {
        ChargeQuantum(head, alg, tasks, v, h);
      }
      ShiftOthers(first, head, delta, tasks, v[h := Charged(alg, v[h])], h);
    } else {
      var delta := MinRelease(first, tasks, v);
      ShiftOthers(first, head, delta, tasks, v, |v|);
    }
  }

  /** What fixt_task_run leaves. */
  ghost predicate Started(n: TaskNode)
    reads n`a, n`r, n`prio
  {
    n.a == 0 && n.r == 0 && n.prio == BASE_PRIO - 1
  }

  lemma AllStarted(s: seq<TaskNode>)
    requires forall i :: 0 <= i < |s| ==> Started(s[i])
    ensures Shown(s, Blank(s)) && PriosShown(s, FirstPrios(|s|))
  {
  }

  class Algo {
    const kind: Alg
    var schedulable: bool
    var tasksHead: TaskNode?
    var queueHead: TaskNode?
    ghost var tasks: seq<TaskNode>
    ghost var queue: seq<TaskNode>

    constructor (kind: Alg)
      ensures this.kind == kind && tasks == [] && AtList(tasksHead, tasks)
    {
      this.kind := kind;
      schedulable := false;
      tasksHead, queueHead := null, null;
      tasks, queue := [], [];
    }

    /** fixt_algo_add_task */
    method AddTask(task: TaskNode)
      requires AtList(tasksHead, tasks) && task !in tasks
      modifies `tasksHead, `tasks, tasks`atPrev, tasks`atNext, task`atPrev, task`atNext
      ensures tasks == old(tasks) + [task] && AtList(tasksHead, tasks)
    {
      tasksHead := AppendAt(tasksHead, task, tasks);
      tasks := tasks + [task];
    }

    /** fixt_algo_init: fixt_task_run starts every task from scratch. */
    method Init()
      requires AtList(tasksHead, tasks)
      modifies tasks`a, tasks`r, tasks`prio
      ensures Shown(tasks, Blank(tasks))
      ensures PriosShown(tasks, FirstPrios(|tasks|)) && forall i :: 0 <= i < |tasks| ==> tasks[i].prio == 9
    {
      hide AtList, Shown, PriosShown;
      ghost var i := 0;
      var elt := tasksHead;
      AtFirst(elt, tasks);
      while elt != null
        invariant i <= |tasks| && elt == Nth(tasks, i)
        invariant forall j :: 0 <= j < i ==> Started(tasks[j])
        decreases |tasks| - i
      {
        elt.a, elt.r, elt.prio := 0, 0, BASE_PRIO - 1;
        AtNext(tasksHead, tasks, i);
        elt := elt.atNext;
        i := i + 1;
      }
      AllStarted(tasks);
    }

    /** The first half of al_schedule: the ready tasks, in registration order, go into the emptied queue. */
    method CollectReady(ghost v: seq<Task>)
      requires AtList(tasksHead, tasks) && Shown(tasks, v)
      modifies `queueHead, `queue, tasks`aqPrev, tasks`aqNext
      ensures forall m :: 0 <= m < |ReadyFrom(v, 0)| ==> ReadyFrom(v, 0)[m] < |tasks|
      ensures queue == Pick(tasks, ReadyFrom(v, 0)) && AqList(queueHead, queue)
    {
      hide AtList, AqList, Collected, Shown;
      ShownLength(tasks, v);
      queueHead := null;
      queue := [];
      ghost var i: nat, q: seq<nat> := 0, [];
      var elt := tasksHead;
      AtFirst(elt, tasks);
      EmptyQueue();
      CollectionStarts(v, tasks);
      while elt != null
        invariant elt == Nth(tasks, i) && i <= |tasks| && Shown(tasks, v)
        invariant Collected(v, tasks, i, queue, q) && AqList(queueHead, queue)
        decreases |tasks| - i
      {
        AtNext(tasksHead, tasks, i);
        CollectionGrows(v, tasks, i, queue, q);
        ShownAt(tasks, v, i);
        if elt.r <= 0 {
          queueHead := AppendAq(queueHead, elt, queue);
          queue, q := queue + [elt], q + [i];
        }
        elt := elt.atNext;
        i := i + 1;
      }
      CollectionEnds(v, tasks, queue, q);
    }

    /** al_schedule of all three algorithms; they differ in the comparator. */
    method BuildQueue(ghost v: seq<Task>)
      requires AtList(tasksHead, tasks) && Shown(tasks, v)
      modifies `queueHead, `queue, tasks`aqPrev, tasks`aqNext
      ensures QueueList(kind, queueHead, queue, tasks, v)
    {
      hide AtList, AqList, Shows, Within, NodeOrder, StableSort, Comparator, Shown, Compare, ViewOf, Pick,
           Sorted, Tied, SortCalls, CeilLog2, Queue, ReadyFrom, Distinct;
      ghost var all := set n | n in tasks;
      AtFirst(tasksHead, tasks);
      ShownLength(tasks, v);
      ghost var view := ViewOf(tasks, v);
      ViewOfShows(tasks, v, all);
      CollectReady(v);
      PickIsWithin(tasks, ReadyFrom(v, 0), all);
      var cmp := (l, r) => Compare(kind, l, r);
      CompareIsComparator(kind);
      ghost var sorted, calls;
      queueHead, sorted, calls := SortAq(queueHead, cmp, view, all, queue);
      QueueIsSort(kind, tasks, v, view, cmp);
      queue := Pick(tasks, Queue(kind, v));
    }

    /** fixt_algo_schedule: rebuild the queue and check it. */
    method Schedule(ghost v: seq<Task>)
      requires AtList(tasksHead, tasks) && Shown(tasks, v)
      modifies `queueHead, `queue, `schedulable, tasks`aqPrev, tasks`aqNext
      ensures QueueList(kind, queueHead, queue, tasks, v)
      ensures schedulable == Check(kind, v)
      ensures AtList(tasksHead, tasks) && Shown(tasks, v)
    {
      hide AtList, Shown, QueueList, Check;
      BuildQueue(v);
      schedulable := CheckQueue(kind, queueHead, queue, tasks, v);
    }

    /** fixt_algo_run: one step of the engine on the nodes, after setting the priorities of the queued threads alone. */
    method Run(ghost v: seq<Task>, ghost pr: seq<int>)
      requires AtList(tasksHead, tasks) && Shown(tasks, v) && PriosShown(tasks, pr)
      requires QueueList(kind, queueHead, queue, tasks, v)
      modifies tasks`a, tasks`r, queue`prio
      ensures Shown(tasks, Step(kind, v))
      ensures PriosShown(tasks, Reprioritised(Queue(kind, v), pr))
    {
      hide AtList, Shown, Step, QueueList, PriosShown, Reprioritised;
      QueueHead(kind, queueHead, queue, tasks, v);
      QueueFirst(kind, queueHead, queue, tasks, v);
      AtFirst(tasksHead, tasks);
      if queueHead != null {
        SetPrios(kind, queueHead, queue, tasks, v, pr);
      } else {
        NothingQueuedKeepsPrios(kind, queue, v, pr);
      }
      Recalc(kind, tasksHead, queueHead, tasks, v);
    }

    /** fixt_algo_halt: every task is taken off the list while it is walked. */
    method Halt()
      requires AtList(tasksHead, tasks)
      modifies `tasksHead, `tasks, tasks`atPrev, tasks`atNext
      ensures tasks == [] && AtList(tasksHead, tasks)
    {
      hide AtList;
      ghost var k := 0;
      var elt := tasksHead;
      AtFirst(elt, tasks);
      while elt != null
        invariant AtList(tasksHead, tasks) && elt == Nth(tasks, 0)
        invariant k <= |old(tasks)| && tasks == old(tasks)[k..]
        decreases |tasks|
      {
        AtNext(tasksHead, tasks, 0);
        var tmp := elt.atNext;
        assert tasks[..0] + tasks[1..] == old(tasks)[k + 1..];
        tasksHead := DeleteAt(tasksHead, elt, tasks, 0);
        tasks := tasks[1..];
        assert tasks == old(tasks)[k + 1..];
        elt := tmp;
        k := k + 1;
      }
    }
  }

  /** The check of the first m members of the queue. */
  ghost predicate PrefixOk(alg: Alg, v: seq<Task>, m: nat) {
    var q := Queue(alg, v);
    forall j :: 0 <= j < m && j < |q| && q[j] < |v| ==>
      if j == 0 then v[q[j]].CompletionTime() <= v[q[j]].RemainingTime()
      else v[q[j]].CompletionTime() < v[q[j]].RemainingTime()
  }

  lemma PrefixEmpty(alg: Alg, v: seq<Task>)
    ensures PrefixOk(alg, v, 0)
  {
  }

  lemma PrefixNext(alg: Alg, v: seq<Task>, m: nat)
    requires m < |Queue(alg, v)| && Queue(alg, v)[m] < |v|
    ensures PrefixOk(alg, v, m + 1) <==>
              PrefixOk(alg, v, m) &&
              var t := v[Queue(alg, v)[m]];
              if m == 0 then t.CompletionTime() <= t.RemainingTime() else t.CompletionTime() < t.RemainingTime()
  {
  }

  lemma PrefixAll(alg: Alg, v: seq<Task>)
    ensures PrefixOk(alg, v, |Queue(alg, v)|) == Check(alg, v)
  {
    QueueInRange(alg, v);
  }

  lemma EmptyQueue()
    ensures AqList(null, [])
  {
  }
}
