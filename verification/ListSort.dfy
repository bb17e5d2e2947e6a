/**
 DL_SORT2 on the ready queue: bottom-up mergesort that relinks the nodes in place. The nested
 loops of the macro are the loops of SortAq, PassAq, TakeRun and MergeAq.
 */
module ListSort {
  import opened Sorting
  import opened Tasks
  import opened TaskList

  /** The comparator on nodes; view gives each node's fields, which sorting leaves alone. */
  ghost function NodeOrder(cmp: (Task, Task) -> int, view: TaskNode -> Task): (TaskNode, TaskNode) -> bool {
    (x: TaskNode, y: TaskNode) => cmp(view(x), view(y)) <= 0
  }

  /** What DL_SORT2 needs of its comparator. */
  ghost predicate Comparator(cmp: (Task, Task) -> int) {
    && (forall x, y :: cmp(x, y) <= 0 || cmp(y, x) <= 0)
    && (forall x, y, z :: cmp(x, y) <= 0 && cmp(y, z) <= 0 ==> cmp(x, z) <= 0)
  }

  ghost predicate Shows(view: TaskNode -> Task, all: set<TaskNode>)
    reads all`a, all`r
  {
    forall n :: n in all ==> n.View() == view(n)
  }

  // ---------- the shape of the list in the middle of a pass ----------

  /** What is still to be merged: linked by next only, to null. */
  ghost predicate Unmerged(p: TaskNode?, s: seq<TaskNode>)
    reads s`aqNext
  {
    && (p == null <==> s == [])
    && (s != [] ==> p == s[0] && s[|s| - 1].aqNext == null)
    && (forall i :: 0 <= i < |s| - 1 ==> s[i].aqNext == s[i + 1])
  }

  /** The part of a run that is not yet merged; where its last next leads is no longer of interest. */
  ghost predicate RunLeft(p: TaskNode?, s: seq<TaskNode>)
    reads s`aqNext
  {
    && (s != [] ==> p == s[0])
    && (forall i :: 0 <= i < |s| - 1 ==> s[i].aqNext == s[i + 1])
  }

  /** What has been merged: linked both ways between list and tail, its ends still open. */
  ghost predicate Merged(list: TaskNode?, tail: TaskNode?, s: seq<TaskNode>)
    reads s`aqNext, s`aqPrev
  {
    && (s == [] ==> list == null && tail == null)
    && (s != [] ==> list == s[0] && tail == s[|s| - 1])
    && (forall i :: 0 <= i < |s| - 1 ==> s[i].aqNext == s[i + 1])
    && (forall i :: 0 < i < |s| ==> s[i].aqPrev == s[i - 1])
  }

  ghost predicate Disjoint(s: seq<TaskNode>, t: seq<TaskNode>) {
    forall i, j :: 0 <= i < |s| && 0 <= j < |t| ==> s[i] != t[j]
  }

  ghost predicate Apart(s: seq<TaskNode>, t: seq<TaskNode>, u: seq<TaskNode>) {
    Distinct(s) && Distinct(t) && Distinct(u) && Disjoint(s, t) && Disjoint(s, u) && Disjoint(t, u)
  }

  ghost predicate Within(s: seq<TaskNode>, all: set<TaskNode>) {
    forall i :: 0 <= i < |s| ==> s[i] in all
  }

  /** The innermost for loop: step over the left run. */
  method TakeRun(p: TaskNode, insize: nat, ghost s: seq<TaskNode>) returns (q: TaskNode?, psize: nat)
    requires insize > 0 && Unmerged(p, s)
    ensures psize == Min(insize, |s|)
    ensures Unmerged(q, s[psize..])
  {
    q := p;
    psize := 0;
    var i := 0;
    while i < insize
      invariant i <= insize && psize == i < |s|
      invariant q == s[psize]
    {
      psize := psize + 1;
      q := q.aqNext;
      assert psize < |s| ==> q == s[psize];
      if q == null {
        break;
      }
      i := i + 1;
    }
  }

  ghost predicate Held(all: set<TaskNode>, s: seq<TaskNode>, t: seq<TaskNode>, u: seq<TaskNode>) {
    Within(s, all) && Within(t, all) && Within(u, all)
  }

  /** The tail of the merging loop: e is put behind what has been merged. */
  method EmitAq(list: TaskNode?, tail: TaskNode?, e: TaskNode, ghost all: set<TaskNode>,
                ghost out: seq<TaskNode>, ghost p: TaskNode?, ghost left: seq<TaskNode>,
                ghost q: TaskNode?, ghost right: seq<TaskNode>) returns (list': TaskNode?)
    requires Apart(out + [e], left, right) && Held(all, out + [e], left, right)
    requires Merged(list, tail, out) && RunLeft(p, left) && Unmerged(q, right)
    modifies all`aqNext, all`aqPrev
    ensures Merged(list', e, out + [e]) && RunLeft(p, left) && Unmerged(q, right)
  {
    ghost var out' := out + [e];
    assert forall i :: 0 <= i < |out| ==> out'[i] == out[i];
    assert out'[|out|] == e;
    assert e in all && forall i :: 0 <= i < |out| ==> out[i] in all;
    list' := list;
    if tail != null {
      tail.aqNext := e;
    } else {
      list' := e;
    }
    e.aqPrev := tail;
  }

  lemma UnmergedNext(p: TaskNode?, s: seq<TaskNode>)
    requires Unmerged(p, s) && s != []
    ensures p == s[0] && Unmerged(s[0].aqNext, s[1..])
  {
    assert |s| > 1 ==> s[0].aqNext == s[1];
  }

  lemma RunNext(p: TaskNode?, s: seq<TaskNode>)
    requires RunLeft(p, s) && s != []
    ensures p == s[0] && RunLeft(s[0].aqNext, s[1..])
  {
    assert |s| > 1 ==> s[0].aqNext == s[1];
  }

  lemma TakesLeft<T>(le: (T, T) -> bool, out: seq<T>, p: seq<T>, q: seq<T>)
    requires p != [] && (q == [] || le(p[0], q[0]))
    ensures out + Merge(le, p, q) == out + [p[0]] + Merge(le, p[1..], q)
  {
    if q == [] {
      assert Merge(le, p[1..], q) == p[1..];
      assert p == [p[0]] + p[1..];
    }
  }

  lemma TakesRight<T>(le: (T, T) -> bool, out: seq<T>, p: seq<T>, q: seq<T>)
    requires q != [] && (p == [] || !le(p[0], q[0]))
    ensures out + Merge(le, p, q) == out + [q[0]] + Merge(le, p, q[1..])
  {
    if p == [] {
      assert Merge(le, p, q[1..]) == q[1..];
      assert q == [q[0]] + q[1..];
    }
  }

  /**
   The merging loop in numbers: out has been put out, ls and the first k of rs are still to be merged,
   and calls comparisons have been made; m is the length of the right run.
   */
  ghost predicate Merging(le: (TaskNode, TaskNode) -> bool, done: seq<TaskNode>, left: seq<TaskNode>, right: seq<TaskNode>, m: nat,
                          out: seq<TaskNode>, ls: seq<TaskNode>, rs: seq<TaskNode>, k: nat, calls: nat)
  {
    && k <= m <= |right| && rs == right[m - k..]
    && out + Merge(le, ls, rs[..k]) == done + Merge(le, left, right[..m])
    && calls + MergeCalls(le, ls, rs[..k]) == MergeCalls(le, left, right[..m])
  }

  lemma MergingLeft(le: (TaskNode, TaskNode) -> bool, done: seq<TaskNode>, left: seq<TaskNode>, right: seq<TaskNode>, m: nat,
                    out: seq<TaskNode>, ls: seq<TaskNode>, rs: seq<TaskNode>, k: nat, calls: nat)
    requires Merging(le, done, left, right, m, out, ls, rs, k, calls) && k <= |rs|
    requires ls != [] && (k > 0 ==> le(ls[0], rs[0]))
    ensures Merging(le, done, left, right, m, out + [ls[0]], ls[1..], rs, k, calls + if k > 0 then 1 else 0)
  {
    TakesLeft(le, out, ls, rs[..k]);
  }

  lemma MergingRight(le: (TaskNode, TaskNode) -> bool, done: seq<TaskNode>, left: seq<TaskNode>, right: seq<TaskNode>, m: nat,
                     out: seq<TaskNode>, ls: seq<TaskNode>, rs: seq<TaskNode>, k: nat, calls: nat)
    requires Merging(le, done, left, right, m, out, ls, rs, k, calls) && 0 < k <= |rs|
    requires (ls != [] ==> !le(ls[0], rs[0]))
    ensures Merging(le, done, left, right, m, out + [rs[0]], ls, rs[1..], k - 1, calls + if ls != [] then 1 else 0)
  {
    TakesRight(le, out, ls, rs[..k]);
    assert rs[1..][..k - 1] == rs[..k][1..];
  }

  lemma MergingStarts(le: (TaskNode, TaskNode) -> bool, done: seq<TaskNode>, left: seq<TaskNode>, right: seq<TaskNode>, m: nat)
    requires m <= |right|
    ensures Merging(le, done, left, right, m, done, left, right, m, 0)
  {
    assert right[0..] == right;
  }

  lemma MergingEnds(le: (TaskNode, TaskNode) -> bool, done: seq<TaskNode>, left: seq<TaskNode>, right: seq<TaskNode>, m: nat,
                    out: seq<TaskNode>, rs: seq<TaskNode>, calls: nat)
    requires Merging(le, done, left, right, m, out, [], rs, 0, calls)
    ensures m <= |right| && out == done + Merge(le, left, right[..m]) && rs == right[m..]
    ensures calls == MergeCalls(le, left, right[..m])
  {
  }

  /** The list in the middle of a merge: out is linked, ls starts at p and rs at q. */
  ghost predicate Shape(all: set<TaskNode>, list: TaskNode?, tail: TaskNode?, out: seq<TaskNode>,
                        p: TaskNode?, ls: seq<TaskNode>, q: TaskNode?, rs: seq<TaskNode>)
    reads out`aqNext, out`aqPrev, ls`aqNext, rs`aqNext
  {
    && Apart(out, ls, rs) && Held(all, out, ls, rs)
    && Merged(list, tail, out) && RunLeft(p, ls) && Unmerged(q, rs)
  }

  lemma ShapeAhead(view: TaskNode -> Task, all: set<TaskNode>, list: TaskNode?, tail: TaskNode?, out: seq<TaskNode>,
                   p: TaskNode?, ls: seq<TaskNode>, q: TaskNode?, rs: seq<TaskNode>)
    requires Shape(all, list, tail, out, p, ls, q, rs) && Shows(view, all)
    ensures ls != [] ==> p == ls[0] && p.View() == view(p) && RunLeft(p.aqNext, ls[1..])
                         && Apart(out + [p], ls[1..], rs) && Held(all, out + [p], ls[1..], rs)
    ensures q == null <==> rs == []
    ensures rs != [] ==> q == rs[0] && q.View() == view(q) && Unmerged(q.aqNext, rs[1..])
                         && Apart(out + [q], ls, rs[1..]) && Held(all, out + [q], ls, rs[1..])
  {
    if ls != [] {
      RunNext(p, ls);
    }
    if rs != [] {
      UnmergedNext(q, rs);
    }
  }

  /**
   The body of the merging loop: the right head is taken if the left run is used up or its head is larger.
   called is 1 if the step called cmp.
   */
  method StepAq(list0: TaskNode?, tail0: TaskNode?, p0: TaskNode?, psize0: nat, q0: TaskNode?, qsize0: nat,
                cmp: (Task, Task) -> int, ghost view: TaskNode -> Task, ghost all: set<TaskNode>,
                ghost out: seq<TaskNode>, ghost ls: seq<TaskNode>, ghost rs: seq<TaskNode>)
    returns (list: TaskNode?, tail: TaskNode?, p: TaskNode?, psize: nat, q: TaskNode?, qsize: nat, ghost called: nat)
    requires Shape(all, list0, tail0, out, p0, ls, q0, rs) && Shows(view, all)
    requires psize0 == |ls| && (psize0 > 0 || (qsize0 > 0 && q0 != null))
    modifies all`aqNext, all`aqPrev
    ensures psize < psize0 ==>
              && psize == psize0 - 1 && qsize == qsize0
              && (Min(qsize0, |rs|) > 0 ==> cmp(view(ls[0]), view(rs[0])) <= 0)
              && Shape(all, list, tail, out + [ls[0]], p, ls[1..], q, rs)
    ensures psize >= psize0 ==>
              && psize == psize0 && qsize == qsize0 - 1 && rs != []
              && (ls != [] ==> cmp(view(ls[0]), view(rs[0])) > 0)
              && Shape(all, list, tail, out + [rs[0]], p, ls, q, rs[1..])
    ensures called == if ls != [] && Min(qsize0, |rs|) > 0 then 1 else 0
  {
    hide Apart, Held, Merged, RunLeft, Unmerged, Shows;
    ShapeAhead(view, all, list0, tail0, out, p0, ls, q0, rs);
    p, psize, q, qsize, called := p0, psize0, q0, qsize0, 0;
    var e: TaskNode;
    ghost var ls', rs' := ls, rs;
    if psize == 0 {
      e := q; q := q.aqNext; qsize := qsize - 1; rs' := rs[1..];
    } else if qsize == 0 || q == null {
      e := p; p := p.aqNext; psize := psize - 1; ls' := ls[1..];
    } else {
      var order := cmp(p.View(), q.View());
      called := called + 1;
      if order <= 0 {
        e := p; p := p.aqNext; psize := psize - 1; ls' := ls[1..];
      } else {
        e := q; q := q.aqNext; qsize := qsize - 1; rs' := rs[1..];
      }
    }
    list := EmitAq(list0, tail0, e, all, out, p, ls', q, rs');
    tail := e;
  }

  lemma ShapeEnds(all: set<TaskNode>, list: TaskNode?, tail: TaskNode?, out: seq<TaskNode>,
                  p: TaskNode?, q: TaskNode?, rs: seq<TaskNode>)
    requires Shape(all, list, tail, out, p, [], q, rs)
    ensures Merged(list, tail, out) && Unmerged(q, rs) && (q == null <==> rs == [])
    ensures Apart(out, [], rs) && Held(all, out, [], rs)
  {
  }

  /** The merging loop; done is what earlier merges of this pass have put out. */
  method MergeAq(list0: TaskNode?, tail0: TaskNode?, p0: TaskNode, psize0: nat, q0: TaskNode?, insize: nat,
                 cmp: (Task, Task) -> int, ghost view: TaskNode -> Task, ghost all: set<TaskNode>,
                 ghost done: seq<TaskNode>, ghost left: seq<TaskNode>, ghost right: seq<TaskNode>)
    returns (list: TaskNode?, tail: TaskNode?, q: TaskNode?, ghost out: seq<TaskNode>, ghost calls: nat)
    requires insize > 0 && psize0 == |left| > 0
    requires Shape(all, list0, tail0, done, p0, left, q0, right) && Shows(view, all)
    modifies all`aqNext, all`aqPrev
    ensures var m := Min(insize, |right|);
            && out == done + Merge(NodeOrder(cmp, view), left, right[..m])
            && Merged(list, tail, out) && Unmerged(q, right[m..])
            && Apart(out, [], right[m..]) && Held(all, out, [], right[m..])
            && calls == MergeCalls(NodeOrder(cmp, view), left, right[..m])
  {
    hide Merging, Apart, Held, Merged, RunLeft, Unmerged, Shape, Shows, Merge, MergeCalls;
    ghost var le := NodeOrder(cmp, view);
    ghost var m := Min(insize, |right|);
    ghost var ls, rs := left, right;
    list, tail, q, out, calls := list0, tail0, q0, done, 0;
    var p: TaskNode? := p0;
    var psize, qsize := psize0, insize;
    MergingStarts(le, done, left, right, m);
    while psize > 0 || (qsize > 0 && q != null)
      invariant psize == |ls|
      invariant Shape(all, list, tail, out, p, ls, q, rs) && Shows(view, all)
      invariant Merging(le, done, left, right, m, out, ls, rs, Min(qsize, |rs|), calls)
      decreases psize + qsize
    {
      ghost var k, before := Min(qsize, |rs|), psize;
      ghost var called;
      list, tail, p, psize, q, qsize, called := StepAq(list, tail, p, psize, q, qsize, cmp, view, all, out, ls, rs);
      if psize < before {
        MergingLeft(le, done, left, right, m, out, ls, rs, k, calls);
        out, ls := out + [ls[0]], ls[1..];
      } else {
        MergingRight(le, done, left, right, m, out, ls, rs, k, calls);
        out, rs := out + [rs[0]], rs[1..];
      }
      calls := calls + called;
    }
    ShapeEnds(all, list, tail, out, p, q, rs);
    MergingEnds(le, done, left, right, m, out, rs, calls);
  }

  // ---------- one pass ----------

  /** The two assignments that end a pass. */
  method CloseAq(list: TaskNode, tail: TaskNode, ghost all: set<TaskNode>, ghost out: seq<TaskNode>)
    requires out != [] && Merged(list, tail, out) && Distinct(out) && Within(out, all)
    modifies all`aqNext, all`aqPrev
    ensures AqList(list, out)
  {
    assert out[0] in all && out[|out| - 1] in all;
    list.aqPrev := tail;
    tail.aqNext := null;
  }

  lemma Opens(head: TaskNode?, all: set<TaskNode>, s: seq<TaskNode>)
    requires AqList(head, s) && Within(s, all)
    ensures Between(all, null, null, [], head, s)
  {
  }

  /** Between merges: out is linked, and rest, starting at p, is still in runs. */
  ghost predicate Between(all: set<TaskNode>, list: TaskNode?, tail: TaskNode?, out: seq<TaskNode>, p: TaskNode?, rest: seq<TaskNode>)
    reads out`aqNext, out`aqPrev, rest`aqNext
  {
    && Apart(out, [], rest) && Held(all, out, [], rest)
    && Merged(list, tail, out) && Unmerged(p, rest)
  }

  lemma SplitRun(all: set<TaskNode>, list: TaskNode?, tail: TaskNode?, out: seq<TaskNode>,
                 p: TaskNode, s: seq<TaskNode>, k: nat, q: TaskNode?)
    requires Between(all, list, tail, out, p, s) && k <= |s| && Unmerged(q, s[k..])
    ensures Shape(all, list, tail, out, p, s[..k], q, s[k..])
  {
  }

  /** Pass with its first merge done. */
  lemma PassContinues<T>(le: (T, T) -> bool, out: seq<T>, s: seq<T>, n: nat, k: nat, m: nat)
    requires n > 0 && s != [] && k == Min(n, |s|) && m == Min(2 * n, |s|)
    ensures out + Merge(le, s[..k], s[k..m]) + Pass(le, s[m..], n) == out + Pass(le, s, n)
    ensures MergeCalls(le, s[..k], s[k..m]) + PassCalls(le, s[m..], n) == PassCalls(le, s, n)
  {
    hide Pass, Merge, MergeCalls;
    PassOpens(le, s, n, k, m);
  }

  lemma BetweenIsNull(all: set<TaskNode>, list: TaskNode?, tail: TaskNode?, out: seq<TaskNode>, p: TaskNode?, rest: seq<TaskNode>)
    requires Between(all, list, tail, out, p, rest)
    ensures p == null <==> rest == []
  {
  }

  lemma BetweenEnds(all: set<TaskNode>, list: TaskNode?, tail: TaskNode?, out: seq<TaskNode>)
    requires Between(all, list, tail, out, null, []) && out != []
    ensures list != null && tail != null && Merged(list, tail, out)
    ensures Distinct(out) && Within(out, all)
  {
  }

  /** One turn of the middle loop: the next two runs of rest are merged behind out. */
  method MergeRuns(list0: TaskNode?, tail0: TaskNode?, p0: TaskNode, insize: nat, cmp: (Task, Task) -> int,
                   ghost view: TaskNode -> Task, ghost all: set<TaskNode>, ghost out0: seq<TaskNode>, ghost rest: seq<TaskNode>)
    returns (list: TaskNode?, tail: TaskNode?, p: TaskNode?, ghost out: seq<TaskNode>, ghost m: nat, ghost calls: nat)
    requires insize > 0 && rest != []
    requires Between(all, list0, tail0, out0, p0, rest) && Shows(view, all)
    modifies all`aqNext, all`aqPrev
    ensures m == Min(2 * insize, |rest|) && |out| == |out0| + m
    ensures Between(all, list, tail, out, p, rest[m..])
    ensures out + Pass(NodeOrder(cmp, view), rest[m..], insize) == out0 + Pass(NodeOrder(cmp, view), rest, insize)
    ensures calls + PassCalls(NodeOrder(cmp, view), rest[m..], insize) == PassCalls(NodeOrder(cmp, view), rest, insize)
  {
    hide Apart, Held, Merged, RunLeft, Unmerged, Shape, Shows, Merge, NodeOrder, Pass, MergeCalls, PassCalls;
    ghost var le := NodeOrder(cmp, view);
    var q, psize := TakeRun(p0, insize, rest);
    m := Min(2 * insize, |rest|);
    ghost var left, right := rest[..psize], rest[psize..];
    SplitRun(all, list0, tail0, out0, p0, rest, psize, q);
    PassContinues(le, out0, rest, insize, psize, m);
    SliceAgain(rest, insize, psize, m);
    list, tail, p, out, calls := MergeAq(list0, tail0, p0, psize, q, insize, cmp, view, all, out0, left, right);
  }

  /** One round of the outer loop: the list becomes Pass of what it was, and cmp is called PassCalls times. */
  method PassAq(list0: TaskNode, insize: nat, cmp: (Task, Task) -> int,
                ghost view: TaskNode -> Task, ghost all: set<TaskNode>, ghost cur: seq<TaskNode>)
    returns (list: TaskNode?, nmerges: nat, ghost calls: nat)
    requires insize > 0 && AqList(list0, cur) && Within(cur, all) && Shows(view, all)
    modifies all`aqNext, all`aqPrev
    ensures AqList(list, Pass(NodeOrder(cmp, view), cur, insize))
    ensures Within(Pass(NodeOrder(cmp, view), cur, insize), all)
    ensures nmerges == Pairs(|cur|, 2 * insize)
    ensures calls == PassCalls(NodeOrder(cmp, view), cur, insize)
  {
    hide Between, Merged, Unmerged, Shows, AqList, Within, NodeOrder, Pass, Pairs, PassCalls;
    ghost var le, w := NodeOrder(cmp, view), 2 * insize;
    ghost var out, rest := [], cur;
    var p: TaskNode? := list0;
    list := null;
    var tail: TaskNode? := null;
    nmerges, calls := 0, 0;
    Opens(p, all, cur);
    BetweenIsNull(all, list, tail, out, p, rest);
    while p != null
      invariant (p == null <==> rest == []) && cur != []
      invariant |out| + |rest| == |cur|
      invariant Between(all, list, tail, out, p, rest) && Shows(view, all)
      invariant out + Pass(le, rest, insize) == Pass(le, cur, insize)
      invariant nmerges + Pairs(|rest|, w) == Pairs(|cur|, w)
      invariant calls + PassCalls(le, rest, insize) == PassCalls(le, cur, insize)
      decreases |rest|
    {
      nmerges := nmerges + 1;
      PairsOpens(|rest|, w);
      ghost var m, more;
      list, tail, p, out, m, more := MergeRuns(list, tail, p, insize, cmp, view, all, out, rest);
      calls, rest := calls + more, rest[m..];
      BetweenIsNull(all, list, tail, out, p, rest);
    }
    EmptyPass(le, insize);
    assert out == out + Pass(le, rest, insize);
    NoPairs(w);
    BetweenEnds(all, list, tail, out);
    CloseAq(list, tail, all, out);
  }

  lemma EmptyPass<T>(le: (T, T) -> bool, n: nat)
    requires n > 0
    ensures Pass(le, [], n) == [] && PassCalls(le, [], n) == 0
  {
  }

  // ---------- the whole sort ----------

  lemma OrderIsTotalOn(cmp: (Task, Task) -> int, view: TaskNode -> Task, s: seq<TaskNode>)
    requires Comparator(cmp)
    ensures TotalOn(NodeOrder(cmp, view), s)
  {
  }

  lemma RunsCoverAll(le: (TaskNode, TaskNode) -> bool, s: seq<TaskNode>, n: nat)
    requires n > 0 && |s| <= n
    ensures Runs(le, s, n) == StableSort(le, s)
  {
  }

  /** s in its stable order is all that the reference sort promises. */
  lemma SortedNodes(le: (TaskNode, TaskNode) -> bool, s: seq<TaskNode>)
    requires TotalOn(le, s)
    ensures var out := StableSort(le, s);
            && multiset(out) == multiset(s) && Sorted(le, out)
            && forall k :: 0 <= k < |s| ==> Tied(le, s[k], out) == Tied(le, s[k], s)
    ensures SortCalls(le, s, 1) <= |s| * CeilLog2(|s|)
  {
    hide TotalOn, StableSort, Sorted, Tied, SortCalls, CeilLog2;
    SortIsPermutation(le, s);
    SortIsSorted(le, s);
    SortIsFast(le, s);
    forall k | 0 <= k < |s|
      ensures Tied(le, s[k], StableSort(le, s)) == Tied(le, s[k], s)
    {
      TotalWithin(le, s, [s[k]] + s);
      SortIsStable(le, s[k], s);
    }
  }

  /**
   DL_SORT2 on a queue whose nodes are s: afterwards the same nodes are linked in ascending order, tied ones
   as before, and cmp was called at most n * ceil(log2 n) times.
   */
  method SortAq(list0: TaskNode?, cmp: (Task, Task) -> int, ghost view: TaskNode -> Task, ghost all: set<TaskNode>, ghost s: seq<TaskNode>)
    returns (list: TaskNode?, ghost out: seq<TaskNode>, ghost calls: nat)
    requires AqList(list0, s) && Within(s, all) && Shows(view, all)
    requires Comparator(cmp)
    modifies all`aqNext, all`aqPrev
    ensures AqList(list, out) && out == StableSort(NodeOrder(cmp, view), s)
    ensures multiset(out) == multiset(s) && Sorted(NodeOrder(cmp, view), out)
    ensures forall k :: 0 <= k < |s| ==> Tied(NodeOrder(cmp, view), s[k], out) == Tied(NodeOrder(cmp, view), s[k], s)
    ensures calls == SortCalls(NodeOrder(cmp, view), s, 1) <= |s| * CeilLog2(|s|)
  {
    hide Shows, AqList, Within, NodeOrder, Pass, Pairs, Runs, StableSort, Sorted, Tied, Comparator, TotalOn, CeilLog2, SortCalls, PassCalls;
    ghost var le := NodeOrder(cmp, view);
    list, out, calls := list0, s, 0;
    OrderIsTotalOn(cmp, view, s);
    SortedNodes(le, s);
    NullList(list, s);
    if list != null {
      var insize := 1;
      var looping := true;
      RunsOfOne(le, s);
      while looping
        invariant AqList(list, out) && Within(out, all) && Shows(view, all)
        invariant insize > 0 && out == Runs(le, s, insize) && |out| == |s| > 0
        invariant !looping ==> |s| <= insize
        invariant calls + (if looping then SortCalls(le, out, insize) else 0) == SortCalls(le, s, 1)
        decreases looping, |s| - insize
      {
        NullList(list, out);
        ghost var more;
        var nmerges;
        PassDoublesRuns(le, s, insize);
        RunsArePermutation(le, s, 2 * insize);
        FewPairs(|out|, 2 * insize);
        SortCallsOpens(le, out, insize);
        list, nmerges, more := PassAq(list, insize, cmp, view, all, out);
        if nmerges <= 1 {
          looping := false;
        }
        calls := calls + more;
        out := Pass(le, out, insize);
        insize := insize * 2;
      }
      RunsCoverAll(le, s, insize);
    } else {
      NothingToSort(le);
    }
  }

  lemma NullList(head: TaskNode?, s: seq<TaskNode>)
    requires AqList(head, s)
    ensures head == null <==> s == []
  {
  }

  lemma NothingToSort(le: (TaskNode, TaskNode) -> bool)
    ensures StableSort(le, []) == []
    ensures SortCalls(le, [], 1) == 0
  {
  }
}
