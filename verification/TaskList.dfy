/**
 struct fixt_task with its three intrusive lists, and the DL_ macros of utlist.h as the
 scheduler expands them. A list is reached from its head; head.prev is the tail, tail.next is null.
 */
module TaskList {
  import opened Tasks

  class TaskNode {
    const c: int
    const p: int
    const d: int
    var a: int
    var r: int
    var prio: int

    var tsPrev: TaskNode?
    var tsNext: TaskNode?
    var atPrev: TaskNode?
    var atNext: TaskNode?
    var aqPrev: TaskNode?
    var aqNext: TaskNode?

    constructor (c: int, p: int, d: int)
      ensures View() == Task(c, p, d, 0, 0)
      ensures tsPrev == tsNext == atPrev == atNext == aqPrev == aqNext == null
    {
      this.c, this.p, this.d := c, p, d;
      a, r, prio := 0, 0, 0;
      tsPrev, tsNext, atPrev, atNext, aqPrev, aqNext := null, null, null, null, null, null;
    }

    function View(): Task
      reads this`a, this`r
    {
      Task(c, p, d, a, r)
    }
  }

  ghost predicate Distinct(s: seq<TaskNode>) {
    forall i, j :: 0 <= i < j < |s| ==> s[i] != s[j]
  }

  // ---------- the task set list ----------

  ghost predicate TsList(head: TaskNode?, s: seq<TaskNode>)
    reads s`tsPrev, s`tsNext
  {
    && Distinct(s)
    && (head == null <==> s == [])
    && (s != [] ==> head == s[0] && s[0].tsPrev == s[|s| - 1] && s[|s| - 1].tsNext == null)
    && (forall i :: 0 <= i < |s| - 1 ==> s[i].tsNext == s[i + 1])
    && (forall i :: 0 < i < |s| ==> s[i].tsPrev == s[i - 1])
  }

  method AppendTs(head: TaskNode?, add: TaskNode, ghost s: seq<TaskNode>) returns (head': TaskNode?)
    requires TsList(head, s) && add !in s
    modifies s`tsPrev, s`tsNext, add`tsPrev, add`tsNext
    ensures TsList(head', s + [add])
  {
    head' := head;
    if head' != null {
      add.tsPrev := head'.tsPrev;
      head'.tsPrev.tsNext := add;
      head'.tsPrev := add;
      add.tsNext := null;
    } else {
      head' := add;
      head'.tsPrev := head';
      head'.tsNext := null;
    }
  }

  // ---------- the algorithm's task list ----------

  ghost predicate AtList(head: TaskNode?, s: seq<TaskNode>)
    reads s`atPrev, s`atNext
  {
    && Distinct(s)
    && (head == null <==> s == [])
    && (s != [] ==> head == s[0] && s[0].atPrev == s[|s| - 1] && s[|s| - 1].atNext == null)
    && (forall i :: 0 <= i < |s| - 1 ==> s[i].atNext == s[i + 1])
    && (forall i :: 0 < i < |s| ==> s[i].atPrev == s[i - 1])
  }

  method AppendAt(head: TaskNode?, add: TaskNode, ghost s: seq<TaskNode>) returns (head': TaskNode?)
    requires AtList(head, s) && add !in s
    modifies s`atPrev, s`atNext, add`atPrev, add`atNext
    ensures AtList(head', s + [add])
  {
    head' := head;
    if head' != null {
      add.atPrev := head'.atPrev;
      head'.atPrev.atNext := add;
      head'.atPrev := add;
      add.atNext := null;
    } else {
      head' := add;
      head'.atPrev := head';
      head'.atNext := null;
    }
  }

  /** DL_DELETE2: del is the k-th element; its own links are left as they were. */
  method DeleteAt(head: TaskNode?, del: TaskNode, ghost s: seq<TaskNode>, ghost k: nat) returns (head': TaskNode?)
    requires AtList(head, s) && k < |s| && s[k] == del
    modifies s`atPrev, s`atNext
    ensures AtList(head', s[..k] + s[k + 1..])
    ensures del.atNext == old(del.atNext) && del.atPrev == old(del.atPrev)
  {
    assert k > 0 ==> del.atPrev == s[k - 1];
    assert k < |s| - 1 ==> del.atNext == s[k + 1];
    head' := head;
    if del.atPrev == del {
      head' := null;
    } else if del == head' {
      del.atNext.atPrev := del.atPrev;
      head' := del.atNext;
    } else {
      del.atPrev.atNext := del.atNext;
      if del.atNext != null {
        del.atNext.atPrev := del.atPrev;
      } else {
        head'.atPrev := del.atPrev;
      }
    }
  }

  // ---------- the ready queue ----------

  ghost predicate AqList(head: TaskNode?, s: seq<TaskNode>)
    reads s`aqPrev, s`aqNext
  {
    && Distinct(s)
    && (head == null <==> s == [])
    && (s != [] ==> head == s[0] && s[0].aqPrev == s[|s| - 1] && s[|s| - 1].aqNext == null)
    && (forall i :: 0 <= i < |s| - 1 ==> s[i].aqNext == s[i + 1])
    && (forall i :: 0 < i < |s| ==> s[i].aqPrev == s[i - 1])
  }

  method AppendAq(head: TaskNode?, add: TaskNode, ghost s: seq<TaskNode>) returns (head': TaskNode?)
    requires AqList(head, s) && add !in s
    modifies s`aqPrev, s`aqNext, add`aqPrev, add`aqNext
    ensures AqList(head', s + [add])
  {
    head' := head;
    if head' != null {
      add.aqPrev := head'.aqPrev;
      head'.aqPrev.aqNext := add;
      head'.aqPrev := add;
      add.aqNext := null;
    } else {
      head' := add;
      head'.aqPrev := head';
      head'.aqNext := null;
    }
  }
}
