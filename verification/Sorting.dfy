/**
 The pure side of DL_SORT2: a reference stable sort, and the merge passes the macro performs,
 as functions on sequences.
 */
module Sorting {
  import opened Sums

  /**
   What DL_SORT2 needs of its comparator on the elements of s, heap nodes included: le(x, y), which
   stands for cmp(x, y) <= 0, is a total preorder on them.
   */
  ghost predicate TotalOn<T>(le: (T, T) -> bool, s: seq<T>) {
    && (forall x, y :: x in s && y in s ==> le(x, y) || le(y, x))
    && (forall x, y, z :: x in s && y in s && z in s && le(x, y) && le(y, z) ==> le(x, z))
  }

  ghost predicate Inside<T>(t: seq<T>, s: seq<T>) {
    forall x :: x in t ==> x in s
  }

  lemma TotalWithin<T>(le: (T, T) -> bool, s: seq<T>, t: seq<T>)
    requires TotalOn(le, s) && Inside(t, s)
    ensures TotalOn(le, t)
  {
  }

  lemma TotalAt<T>(le: (T, T) -> bool, s: seq<T>, x: T, y: T, z: T)
    requires TotalOn(le, s) && x in s && y in s && z in s
    ensures le(x, y) || le(y, x)
    ensures le(x, y) && le(y, z) ==> le(x, z)
  {
  }

  ghost predicate Sorted<T>(le: (T, T) -> bool, s: seq<T>) {
    forall i, j :: 0 <= i < j < |s| ==> le(s[i], s[j])
  }

  function Min(x: int, y: int): int {
    if x < y then x else y
  }

  // ---------- the reference: stable insertion sort ----------

  function Insert<T>(le: (T, T) -> bool, x: T, s: seq<T>): seq<T> {
    if s == [] then [x]
    else if le(x, s[0]) then [x] + s
    else [s[0]] + Insert(le, x, s[1..])
  }

  function StableSort<T>(le: (T, T) -> bool, s: seq<T>): seq<T> {
    if s == [] then [] else Insert(le, s[0], StableSort(le, s[1..]))
  }

  lemma {:induction false} InsertIsPermutation<T>(le: (T, T) -> bool, x: T, s: seq<T>)
    ensures multiset(Insert(le, x, s)) == multiset([x] + s)
    ensures |Insert(le, x, s)| == |s| + 1
  {
    if s == [] {
      assert [x] + s == [x];
    } else if !le(x, s[0]) {
      InsertIsPermutation(le, x, s[1..]);
      assert s == [s[0]] + s[1..];
    }
  }

  lemma {:induction false} SortIsPermutation<T>(le: (T, T) -> bool, s: seq<T>)
    ensures multiset(StableSort(le, s)) == multiset(s)
    ensures |StableSort(le, s)| == |s|
  {
    if s != [] {
      SortIsPermutation(le, s[1..]);
      InsertIsPermutation(le, s[0], StableSort(le, s[1..]));
      assert s == [s[0]] + s[1..];
    }
  }

  lemma SameMembers<T>(s: seq<T>, t: seq<T>)
    requires multiset(s) == multiset(t)
    ensures Inside(s, t) && Inside(t, s)
  {
    assert forall x :: x in s ==> x in multiset(s);
    assert forall x :: x in t ==> x in multiset(t);
  }

  lemma {:induction false} InsertKeepsSorted<T>(le: (T, T) -> bool, x: T, s: seq<T>)
    requires TotalOn(le, [x] + s) && Sorted(le, s)
    ensures Sorted(le, Insert(le, x, s))
  {
    if s != [] && !le(x, s[0]) {
      TotalWithin(le, [x] + s, [x] + s[1..]);
      InsertKeepsSorted(le, x, s[1..]);
      var t := Insert(le, x, s[1..]);
      InsertIsPermutation(le, x, s[1..]);
      SameMembers(t, [x] + s[1..]);
      assert x in [x] + s && s[0] in [x] + s;
      forall j | 0 <= j < |t|
        ensures le(s[0], t[j])
      {
        assert t[j] in t;
        if t[j] != x {
          assert t[j] in s[1..];
        }
      }
    }
  }

  /** Cutting off the first element and sorting the rest leaves the order total. */
  lemma TotalOnRest<T>(le: (T, T) -> bool, s: seq<T>)
    requires TotalOn(le, s) && s != []
    ensures TotalOn(le, s[1..]) && TotalOn(le, [s[0]] + StableSort(le, s[1..]))
  {
    SortIsPermutation(le, s[1..]);
    SameMembers(StableSort(le, s[1..]), s[1..]);
  }

  lemma {:induction false} SortIsSorted<T>(le: (T, T) -> bool, s: seq<T>)
    requires TotalOn(le, s)
    ensures Sorted(le, StableSort(le, s))
  {
    if s != [] {
      TotalOnRest(le, s);
      SortIsSorted(le, s[1..]);
      InsertKeepsSorted(le, s[0], StableSort(le, s[1..]));
    }
  }

  /** The elements equivalent to x, in order: what stability speaks about. */
  function Tied<T>(le: (T, T) -> bool, x: T, s: seq<T>): seq<T> {
    if s == [] then []
    else (if le(x, s[0]) && le(s[0], x) then [s[0]] else []) + Tied(le, x, s[1..])
  }

  /** Tied keeps the order of s and keeps just the elements equivalent to x. */
  lemma {:induction false} TiedIsFilter<T>(le: (T, T) -> bool, x: T, s: seq<T>, y: T)
    ensures Tied(le, x, s + [y]) == Tied(le, x, s) + if le(x, y) && le(y, x) then [y] else []
  {
    if s == [] {
      assert s + [y] == [y] && [y][1..] == [];
    } else {
      assert (s + [y])[0] == s[0] && (s + [y])[1..] == s[1..] + [y];
      TiedIsFilter(le, x, s[1..], y);
    }
  }

  lemma {:induction false} InsertKeepsTied<T>(le: (T, T) -> bool, x: T, y: T, s: seq<T>)
    requires TotalOn(le, [x, y] + s)
    ensures Tied(le, x, Insert(le, y, s)) == Tied(le, x, [y] + s)
  {
    hide TotalOn, Inside, Tied, Insert;
    InsertOpens(le, y, s);
    if s != [] && !le(y, s[0]) {
      var z, rest := s[0], s[1..];
      InsideRest(x, y, s);
      TotalWithin(le, [x, y] + s, [x, y] + rest);
      InsertKeepsTied(le, x, y, rest);
      TotalAt(le, [x, y] + s, y, x, z);
      TiedCons(le, x, z, Insert(le, y, rest));
      TiedCons(le, x, y, rest);
      TiedCons(le, x, y, s);
      TiedCons(le, x, z, rest);
      assert [z] + rest == s;
    }
  }

  lemma InsertOpens<T>(le: (T, T) -> bool, y: T, s: seq<T>)
    ensures Insert(le, y, s) == if s != [] && !le(y, s[0]) then [s[0]] + Insert(le, y, s[1..]) else [y] + s
  {
    assert s == [] ==> [y] + s == [y];
  }

  lemma InsideRest<T>(x: T, y: T, s: seq<T>)
    requires s != []
    ensures Inside([x, y] + s[1..], [x, y] + s)
    ensures x in [x, y] + s && y in [x, y] + s && s[0] in [x, y] + s
  {
    assert x == ([x, y] + s)[0] && y == ([x, y] + s)[1];
  }

  lemma TiedCons<T>(le: (T, T) -> bool, x: T, y: T, s: seq<T>)
    ensures Tied(le, x, [y] + s) == (if le(x, y) && le(y, x) then [y] else []) + Tied(le, x, s)
  {
    assert ([y] + s)[1..] == s;
  }

  /** The reference sort is stable: the elements equivalent to x, whichever x is, keep their order. */
  lemma {:induction false} SortIsStable<T>(le: (T, T) -> bool, x: T, s: seq<T>)
    requires TotalOn(le, [x] + s)
    ensures Tied(le, x, StableSort(le, s)) == Tied(le, x, s)
  {
    if s != [] {
      var t := StableSort(le, s[1..]);
      SortIsPermutation(le, s[1..]);
      SameMembers(t, s[1..]);
      TotalWithin(le, [x] + s, [x] + s[1..]);
      TotalWithin(le, [x] + s, [x, s[0]] + t);
      SortIsStable(le, x, s[1..]);
      InsertKeepsTied(le, x, s[0], t);
      assert ([s[0]] + t)[1..] == t;
    }
  }

  /** Ascending, and by number among equivalent elements. */
  ghost predicate InOrder(le: (nat, nat) -> bool, s: seq<nat>) {
    forall i, j :: 0 <= i < j < |s| ==> le(s[i], s[j]) && (le(s[j], s[i]) ==> s[i] < s[j])
  }

  /** x comes before every element of s. */
  ghost predicate ComesFirst(le: (nat, nat) -> bool, x: nat, s: seq<nat>) {
    forall y :: y in s ==> le(x, y) && (le(y, x) ==> x < y)
  }

  lemma FirstInOrder(le: (nat, nat) -> bool, x: nat, s: seq<nat>)
    requires ComesFirst(le, x, s) && InOrder(le, s)
    ensures InOrder(le, [x] + s)
  {
    assert forall k :: 0 <= k < |s| ==> s[k] in s;
  }

  lemma RestInOrder(le: (nat, nat) -> bool, s: seq<nat>)
    requires InOrder(le, s) && s != []
    ensures ComesFirst(le, s[0], s[1..]) && InOrder(le, s[1..])
  {
  }

  lemma {:induction false} InsertKeepsOrder(le: (nat, nat) -> bool, x: nat, s: seq<nat>)
    requires TotalOn(le, [x] + s) && InOrder(le, s) && forall y :: y in s ==> x < y
    ensures InOrder(le, Insert(le, x, s))
  {
    hide TotalOn, InOrder;
    if s == [] {
      FirstInOrderOfNone(le, x);
    } else {
      var z, rest := s[0], s[1..];
      RestInOrder(le, s);
      assert x in [x] + s && z in [x] + s && forall y :: y in rest ==> y in [x] + s;
      if le(x, z) {
        forall y | y in s
          ensures le(x, y)
        {
          TotalAt(le, [x] + s, x, z, y);
        }
        FirstInOrder(le, x, s);
      } else {
        var t := Insert(le, x, rest);
        TotalWithin(le, [x] + s, [x] + rest);
        TotalAt(le, [x] + s, x, z, x);
        InsertKeepsOrder(le, x, rest);
        InsertIsPermutation(le, x, rest);
        SameMembers(t, [x] + rest);
        FirstInOrder(le, z, t);
      }
    }
  }

  lemma FirstInOrderOfNone(le: (nat, nat) -> bool, x: nat)
    ensures InOrder(le, [x])
  {
  }

  /** Sorting numbers that ascend leaves them ordered by le first and then as numbers. */
  lemma {:induction false} SortIsInOrder(le: (nat, nat) -> bool, s: seq<nat>)
    requires TotalOn(le, s) && forall i, j :: 0 <= i < j < |s| ==> s[i] < s[j]
    ensures InOrder(le, StableSort(le, s))
  {
    if s != [] {
      var t := StableSort(le, s[1..]);
      TotalOnRest(le, s);
      SortIsInOrder(le, s[1..]);
      SortIsPermutation(le, s[1..]);
      SameMembers(t, s[1..]);
      InsertKeepsOrder(le, s[0], t);
    }
  }

  /** The head of the sorted sequence is the first of the smallest. */
  lemma {:induction false} SortHead<T>(le: (T, T) -> bool, s: seq<T>) returns (m: nat)
    requires TotalOn(le, s) && s != []
    ensures m < |s| && |StableSort(le, s)| > 0 && StableSort(le, s)[0] == s[m]
    ensures forall j :: 0 <= j < |s| ==> le(s[m], s[j])
    ensures forall j :: 0 <= j < m ==> !le(s[j], s[m])
  {
    assert forall j :: 0 <= j < |s| ==> s[j] in s;
    if |s| == 1 {
      m := 0;
      assert s[1..] == [];
    } else {
      var k := SortHead(le, s[1..]);
      m := if le(s[0], s[1 + k]) then 0 else 1 + k;
      forall j | 0 <= j < |s|
        ensures le(s[m], s[j])
        ensures j < m ==> !le(s[j], s[m])
      {
        if j > 0 {
          assert s[j] == s[1..][j - 1];
        }
      }
    }
  }

  // ---------- what DL_SORT2 computes: merge passes ----------

  /** One merge: the left run wins ties. */
  function Merge<T>(le: (T, T) -> bool, p: seq<T>, q: seq<T>): (m: seq<T>)
    ensures |m| == |p| + |q|
  {
    if p == [] then q
    else if q == [] then p
    else if le(p[0], q[0]) then [p[0]] + Merge(le, p[1..], q)
    else [q[0]] + Merge(le, p, q[1..])
  }

  /** One pass of the outer loop: neighbouring runs of length n are merged pairwise. */
  function Pass<T>(le: (T, T) -> bool, s: seq<T>, n: nat): (m: seq<T>)
    requires n > 0
    ensures |m| == |s|
  {
    if s == [] then []
    else
      var p, q := Min(n, |s|), Min(2 * n, |s|);
      Merge(le, s[..p], s[p..q]) + Pass(le, s[q..], n)
  }

  /** s cut into pieces of length n, each piece stably sorted in its place. */
  function Runs<T>(le: (T, T) -> bool, s: seq<T>, n: nat): seq<T>
    requires n > 0
    decreases |s|
  {
    if |s| <= n then StableSort(le, s)
    else StableSort(le, s[..n]) + Runs(le, s[n..], n)
  }

  lemma {:induction false} RunsOfOne<T>(le: (T, T) -> bool, s: seq<T>)
    ensures Runs(le, s, 1) == s
    decreases |s|
  {
    if |s| == 1 {
      assert s[1..] == [] && s == [s[0]];
      assert StableSort(le, s) == Insert(le, s[0], StableSort(le, s[1..]));
    } else if |s| > 1 {
      RunsOfOne(le, s[1..]);
      assert s[..1][1..] == [];
      assert StableSort(le, s[..1]) == [s[0]];
      assert s == [s[0]] + s[1..];
    }
  }

  lemma {:induction false} RunsArePermutation<T>(le: (T, T) -> bool, s: seq<T>, n: nat)
    requires n > 0
    ensures multiset(Runs(le, s, n)) == multiset(s)
    ensures |Runs(le, s, n)| == |s|
    decreases |s|
  {
    hide StableSort;
    if |s| <= n {
      SortIsPermutation(le, s);
    } else {
      SortIsPermutation(le, s[..n]);
      RunsArePermutation(le, s[n..], n);
      assert Runs(le, s, n) == StableSort(le, s[..n]) + Runs(le, s[n..], n);
      assert s == s[..n] + s[n..];
    }
  }

  lemma {:induction false} MergeAfterInsert<T>(le: (T, T) -> bool, x: T, u: seq<T>, v: seq<T>)
    requires TotalOn(le, [x] + u + v)
    ensures Merge(le, Insert(le, x, u), v) == Insert(le, x, Merge(le, u, v))
    decreases |u| + |v|
  {
    var m, all := Merge(le, u, v), [x] + u + v;
    assert x in all && (u != [] ==> u[0] in all) && (v != [] ==> v[0] in all);
    if v == [] {
    } else if u == [] || le(x, u[0]) {
      assert ([x] + u)[1..] == u;
      if !le(x, v[0]) {
        if u != [] {
          assert !le(u[0], v[0]);
        }
        TotalWithin(le, all, [x] + u + v[1..]);
        MergeAfterInsert(le, x, u, v[1..]);
        assert m == [v[0]] + Merge(le, u, v[1..]);
        assert m[1..] == Merge(le, u, v[1..]);
        assert u == [] ==> [x] + u == [x];
      } else {
        assert u == [] ==> [x] + u == [x];
        assert m[0] == v[0] || m[0] == u[0];
        assert le(x, m[0]);
      }
    } else {
      var t := Insert(le, x, u);
      assert t[0] == u[0] && t[1..] == Insert(le, x, u[1..]);
      if le(u[0], v[0]) {
        TotalWithin(le, all, [x] + u[1..] + v);
        MergeAfterInsert(le, x, u[1..], v);
        assert m[0] == u[0] && m[1..] == Merge(le, u[1..], v);
      } else {
        TotalWithin(le, all, [x] + u + v[1..]);
        MergeAfterInsert(le, x, u, v[1..]);
        assert m[0] == v[0] && m[1..] == Merge(le, u, v[1..]);
        assert !le(x, v[0]);
      }
    }
  }

  /** Merging two sorted halves is sorting the whole: the heart of the mergesort. */
  lemma {:induction false} MergeOfSorts<T>(le: (T, T) -> bool, a: seq<T>, b: seq<T>)
    requires TotalOn(le, a + b)
    ensures Merge(le, StableSort(le, a), StableSort(le, b)) == StableSort(le, a + b)
    decreases |a|
  {
    if a == [] {
      assert a + b == b;
    } else {
      hide TotalOn, Merge;
      assert (a + b)[0] == a[0] && (a + b)[1..] == a[1..] + b;
      TotalWithin(le, a + b, a[1..] + b);
      MergeOfSorts(le, a[1..], b);
      var u, v := StableSort(le, a[1..]), StableSort(le, b);
      SortIsPermutation(le, a[1..]);
      SortIsPermutation(le, b);
      SameMembers(u, a[1..]);
      SameMembers(v, b);
      TotalWithin(le, a + b, [a[0]] + u + v);
      MergeAfterInsert(le, a[0], u, v);
    }
  }

  /** A pass over p + q + rest, where p and q are the first two runs, merges them. */
  lemma PassTakes<T>(le: (T, T) -> bool, p: seq<T>, q: seq<T>, rest: seq<T>, n: nat)
    requires n > 0 && 0 < |p| <= n && |q| <= n
    requires |p| < n ==> q == []
    requires |q| < n ==> rest == []
    ensures Pass(le, p + q + rest, n) == Merge(le, p, q) + Pass(le, rest, n)
  {
    var s := p + q + rest;
    assert s[..|p|] == p;
    assert s[|p|..|p| + |q|] == q;
    assert s[|p| + |q|..] == rest;
  }

  lemma RunsSplit<T>(le: (T, T) -> bool, s: seq<T>, n: nat)
    requires n > 0
    ensures Runs(le, s, n) == StableSort(le, s[..Min(n, |s|)]) + Runs(le, s[Min(n, |s|)..], n)
  {
    if |s| <= n {
      assert s[..|s|] == s && s[|s|..] == [];
    }
  }

  lemma SliceAgain<T>(s: seq<T>, n: nat, k: nat, m: nat)
    requires k == Min(n, |s|) && m == Min(2 * n, |s|)
    ensures Min(n, |s[k..]|) == m - k
    ensures s[k..][..m - k] == s[k..m] && s[k..][m - k..] == s[m..]
  {
  }

  lemma RunsSplitTwice<T>(le: (T, T) -> bool, s: seq<T>, n: nat, k: nat, m: nat)
    requires n > 0 && k == Min(n, |s|) && m == Min(2 * n, |s|)
    ensures Runs(le, s, n) == StableSort(le, s[..k]) + StableSort(le, s[k..m]) + Runs(le, s[m..], n)
  {
    hide StableSort, Runs;
    RunsSplit(le, s, n);
    RunsSplit(le, s[k..], n);
    SliceAgain(s, n, k, m);
  }

  /** A pass turns sorted runs of length n into sorted runs of length 2n. */
  lemma {:induction false} PassDoublesRuns<T>(le: (T, T) -> bool, s: seq<T>, n: nat)
    requires n > 0 && TotalOn(le, s)
    ensures Pass(le, Runs(le, s, n), n) == Runs(le, s, 2 * n)
    decreases |s|
  {
    if s == [] {
      assert Runs(le, s, n) == [] == Runs(le, s, 2 * n);
    } else {
      var k, m := Min(n, |s|), Min(2 * n, |s|);
      var a, b, u := s[..k], s[k..m], s[m..];
      var p, q, rest := StableSort(le, a), StableSort(le, b), Runs(le, u, n);
      assert a + b == s[..m];
      hide TotalOn, StableSort, Merge, Pass, Runs;
      TotalWithin(le, s, a + b);
      TotalWithin(le, s, u);
      SortIsPermutation(le, a);
      SortIsPermutation(le, b);
      RunsSplitTwice(le, s, n, k, m);
      PassTakes(le, p, q, rest, n) by {
        EmptyRuns(le, n);
      }
      MergeOfSorts(le, a, b);
      PassDoublesRuns(le, u, n);
      RunsSplit(le, s, 2 * n);
    }
  }

  lemma EmptyRuns<T>(le: (T, T) -> bool, n: nat)
    requires n > 0
    ensures Runs(le, [], n) == [] && StableSort(le, []) == []
  {
  }

  lemma PassOpens<T>(le: (T, T) -> bool, s: seq<T>, n: nat, p: nat, q: nat)
    requires n > 0 && s != [] && p == Min(n, |s|) && q == Min(2 * n, |s|)
    ensures Pass(le, s, n) == Merge(le, s[..p], s[p..q]) + Pass(le, s[q..], n)
  {
    hide Merge;
  }

  // ---------- renaming the elements ----------

  function Map<S, T>(f: S -> T, s: seq<S>): (t: seq<T>)
    ensures |t| == |s|
    ensures forall i :: 0 <= i < |s| ==> t[i] == f(s[i])
  {
    seq(|s|, i requires 0 <= i < |s| => f(s[i]))
  }

  /** le orders S as the other does its images. */
  ghost predicate Agree<S, T>(leS: (S, S) -> bool, leT: (T, T) -> bool, f: S -> T, s: seq<S>) {
    forall x, y :: x in s && y in s ==> leS(x, y) == leT(f(x), f(y))
  }

  lemma MapOpens<S, T>(f: S -> T, s: seq<S>)
    requires s != []
    ensures Map(f, s) != [] && Map(f, s)[0] == f(s[0]) && Map(f, s)[1..] == Map(f, s[1..])
    ensures s[0] in s && forall y :: y in s[1..] ==> y in s
  {
  }

  lemma MapCons<S, T>(f: S -> T, x: S, s: seq<S>)
    ensures Map(f, [x] + s) == [f(x)] + Map(f, s)
  {
  }

  lemma {:induction false} InsertMaps<S, T>(leS: (S, S) -> bool, leT: (T, T) -> bool, f: S -> T, x: S, s: seq<S>)
    requires forall y :: y in s ==> leS(x, y) == leT(f(x), f(y))
    ensures Map(f, Insert(leS, x, s)) == Insert(leT, f(x), Map(f, s))
  {
    hide Map;
    if s == [] {
      MapOfOne(f, x);
    } else {
      MapOpens(f, s);
      InsertMaps(leS, leT, f, x, s[1..]);
      MapCons(f, s[0], Insert(leS, x, s[1..]));
      MapCons(f, x, s);
    }
  }

  lemma MapOfOne<S, T>(f: S -> T, x: S)
    ensures Map(f, []) == [] && Map(f, [x]) == [f(x)]
  {
  }

  /** Sorting commutes with renaming. */
  lemma {:induction false} SortMaps<S, T>(leS: (S, S) -> bool, leT: (T, T) -> bool, f: S -> T, s: seq<S>)
    requires Agree(leS, leT, f, s)
    ensures Map(f, StableSort(leS, s)) == StableSort(leT, Map(f, s))
  {
    if s != [] {
      var rest := s[1..];
      assert s[0] in s && forall y :: y in rest ==> y in s;
      SortMaps(leS, leT, f, rest);
      assert Map(f, s)[1..] == Map(f, rest);
      var sorted := StableSort(leS, rest);
      SortIsPermutation(leS, rest);
      SameMembers(sorted, rest);
      forall y | y in sorted
        ensures leS(s[0], y) == leT(f(s[0]), f(y))
      {
        assert y in s;
      }
      InsertMaps(leS, leT, f, s[0], sorted);
    }
  }

  // ---------- the cost of the passes ----------

  /** The comparisons of one merge: none once either run is used up. */
  function MergeCalls<T>(le: (T, T) -> bool, p: seq<T>, q: seq<T>): nat {
    if p == [] || q == [] then 0
    else if le(p[0], q[0]) then 1 + MergeCalls(le, p[1..], q)
    else 1 + MergeCalls(le, p, q[1..])
  }

  function PassCalls<T>(le: (T, T) -> bool, s: seq<T>, n: nat): nat
    requires n > 0
  {
    if s == [] then 0
    else
      var p, q := Min(n, |s|), Min(2 * n, |s|);
      MergeCalls(le, s[..p], s[p..q]) + PassCalls(le, s[q..], n)
  }

  /** The comparisons of the pass with runs of length n and of those after it; the last pass merges one pair. */
  function SortCalls<T>(le: (T, T) -> bool, s: seq<T>, n: nat): nat
    requires n > 0
    decreases |s| - n
  {
    PassCalls(le, s, n) + if |s| <= 2 * n then 0 else SortCalls(le, Pass(le, s, n), 2 * n)
  }

  /** How many pairs of runs a pass over x elements merges, w elements a pair. */
  function Pairs(x: nat, w: nat): nat
    requires w > 0
  {
    if x == 0 then 0 else 1 + Pairs(x - Min(w, x), w)
  }

  lemma NoPairs(w: nat)
    requires w > 0
    ensures Pairs(0, w) == 0
  {
  }

  lemma PairsOpens(x: nat, w: nat)
    requires w > 0 && x > 0
    ensures Pairs(x, w) == 1 + Pairs(x - Min(w, x), w)
  {
  }

  lemma Quotient(a: int, w: int, q: int)
    requires w > 0 && w * q <= a < w * q + w
    ensures a / w == q
  {
    var s := a / w;
    assert w * s <= a < w * s + w;
    var x := s - q;
    assert w * x == w * s - w * q;
    assert x >= 1 ==> w * x >= w;
    assert x <= -1 ==> w * x <= -w;
  }

  lemma {:induction false} PairsCover(x: nat, w: nat)
    requires w > 0
    ensures x <= w * Pairs(x, w) < x + w
  {
    if x > w {
      PairsCover(x - w, w);
      var n := Pairs(x - w, w);
      assert w * (1 + n) == w + w * n;
    } else {
      NoPairs(w);
    }
  }

  lemma PairsIsCeiling(x: nat, w: nat)
    requires w > 0
    ensures Pairs(x, w) == (x + w - 1) / w
  {
    var n := Pairs(x, w);
    PairsCover(x, w);
    hide Pairs;
    Quotient(x + w - 1, w, n);
  }

  lemma FewPairs(x: nat, w: nat)
    requires w > 0
    ensures Pairs(x, w) <= 1 <==> x <= w
    ensures x > 0 ==> Pairs(x, w) >= 1
  {
    if x > w {
      PairsOpens(x, w);
      PairsOpens(x - w, w);
    } else if x > 0 {
      PairsOpens(x, w);
      NoPairs(w);
    }
  }

  function CeilLog2(n: nat): nat {
    if n <= 1 then 0 else 1 + CeilLog2((n + 1) / 2)
  }

  function Pow2(j: nat): nat {
    if j == 0 then 1 else 2 * Pow2(j - 1)
  }

  lemma {:induction false} PowBelowLog(j: nat, n: nat)
    requires Pow2(j) < n
    ensures j + 1 <= CeilLog2(n)
  {
    if j > 0 {
      PowBelowLog(j - 1, (n + 1) / 2);
    }
  }

  lemma {:induction false} LogIsLeast(n: nat)
    requires n > 0
    ensures n <= Pow2(CeilLog2(n))
    ensures n > 1 ==> Pow2(CeilLog2(n) - 1) < n
  {
    if n > 1 {
      LogIsLeast((n + 1) / 2);
    }
  }

  lemma {:induction false} MergeIsCheap<T>(le: (T, T) -> bool, p: seq<T>, q: seq<T>)
    requires p != [] || q != []
    ensures MergeCalls(le, p, q) < |p| + |q|
    decreases |p| + |q|
  {
    if p != [] && q != [] {
      if le(p[0], q[0]) {
        MergeIsCheap(le, p[1..], q);
      } else {
        MergeIsCheap(le, p, q[1..]);
      }
    }
  }

  /** Comparisons and merges of a pass are together at most the elements. */
  lemma {:induction false} PassIsCheap<T>(le: (T, T) -> bool, s: seq<T>, n: nat)
    requires n > 0
    ensures PassCalls(le, s, n) + Pairs(|s|, 2 * n) <= |s|
  {
    if s != [] {
      var p, q := Min(n, |s|), Min(2 * n, |s|);
      MergeIsCheap(le, s[..p], s[p..q]);
      PassIsCheap(le, s[q..], n);
    }
  }

  lemma SortCallsOpens<T>(le: (T, T) -> bool, s: seq<T>, n: nat)
    requires n > 0
    ensures SortCalls(le, s, n) == PassCalls(le, s, n) + if |s| <= 2 * n then 0 else SortCalls(le, Pass(le, s, n), 2 * n)
  {
  }

  lemma OneLess(a: int, b: int)
    ensures (a - 1) * b == a * b - b == b * (a - 1)
  {
  }

  lemma Doubled(j: nat)
    ensures Pow2(0) == 1 && Pow2(j + 1) == 2 * Pow2(j)
  {
  }

  /** After j passes, each pass that is left makes fewer comparisons than there are elements. */
  lemma {:induction false} PassesAreFew<T>(le: (T, T) -> bool, s: seq<T>, n: nat, j: nat, left: int, most: int)
    requires n == Pow2(j) > 0 && s != [] && (j == 0 || n < |s|)
    requires left == CeilLog2(|s|) - j && most == |s| - 1
    ensures SortCalls(le, s, n) <= left * most
    decreases |s| - n
  {
    hide CeilLog2, Pass, PassCalls, Pairs, Pow2, SortCalls;
    PassIsCheap(le, s, n);
    FewPairs(|s|, 2 * n);
    SortCallsOpens(le, s, n);
    Doubled(j);
    OneLess(left, most);
    if n < |s| {
      PowBelowLog(j, |s|);
      if 2 * n < |s| {
        PassesAreFew(le, Pass(le, s, n), 2 * n, j + 1, left - 1, most);
      } else {
        Scaled(1, left, most);
      }
    }
  }

  /** The cost the documentation of the sort promises. */
  lemma SortIsFast<T>(le: (T, T) -> bool, s: seq<T>)
    ensures SortCalls(le, s, 1) <= |s| * CeilLog2(|s|)
  {
    hide SortCalls, CeilLog2;
    if s != [] {
      PassesAreFew(le, s, 1, 0, CeilLog2(|s|), |s| - 1);
      OneLess(|s|, CeilLog2(|s|));
    } else {
      SortCallsOpens(le, s, 1);
    }
  }
}
