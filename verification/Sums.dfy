/** Finite sums over sequences, the arithmetic under every counting argument of the project. */
module Sums {

  function Sum(s: seq<int>): int {
    if s == [] then 0 else s[0] + Sum(s[1..])
  }

  lemma {:induction false} SumUpdate(s: seq<int>, i: nat, v: int)
    requires i < |s|
    ensures Sum(s[i := v]) == Sum(s) - s[i] + v
  {
    if i == 0 {
      assert s[0 := v][1..] == s[1..];
    } else {
      assert s[i := v][1..] == s[1..][i - 1 := v];
      SumUpdate(s[1..], i - 1, v);
    }
  }

  lemma {:induction false} SumLe(s: seq<int>, t: seq<int>)
    requires |s| == |t|
    requires forall i :: 0 <= i < |s| ==> s[i] <= t[i]
    ensures Sum(s) <= Sum(t)
  {
    if s != [] {
      SumLe(s[1..], t[1..]);
    }
  }

  /** A pointwise bound that is strict at one index is strict for the sums. */
  lemma SumLt(s: seq<int>, t: seq<int>, i: nat)
    requires i < |s| == |t|
    requires forall j :: 0 <= j < |s| ==> s[j] <= t[j]
    requires s[i] < t[i]
    ensures Sum(s) < Sum(t)
  {
    SumUpdate(s, i, s[i] + 1);
    SumLe(s[i := s[i] + 1], t);
  }

  lemma {:induction false} SumPlus(s: seq<int>, t: seq<int>, u: seq<int>)
    requires |s| == |t| == |u|
    requires forall i :: 0 <= i < |s| ==> u[i] == s[i] + t[i]
    ensures Sum(u) == Sum(s) + Sum(t)
  {
    if s != [] {
      SumPlus(s[1..], t[1..], u[1..]);
    }
  }

  lemma {:induction false} SumScale(m: int, s: seq<int>, u: seq<int>)
    requires |s| == |u|
    requires forall i :: 0 <= i < |s| ==> u[i] == m * s[i]
    ensures Sum(u) == m * Sum(s)
  {
    if s != [] {
      SumScale(m, s[1..], u[1..]);
      assert Sum(u) == m * s[0] + m * Sum(s[1..]);
    }
  }

  lemma Scaled(a: int, b: int, c: int)
    requires a <= b && 0 <= c
    ensures a * c <= b * c
  {
  }

  lemma {:induction false} SumZero(s: seq<int>)
    requires forall i :: 0 <= i < |s| ==> s[i] == 0
    ensures Sum(s) == 0
  {
    if s != [] {
      SumZero(s[1..]);
    }
  }

  /** Two distinct entries of a nonnegative sequence are together at most its sum. */
  lemma SumPair(s: seq<int>, i: nat, j: nat)
    requires i < |s| && j < |s| && i != j
    requires forall k :: 0 <= k < |s| ==> 0 <= s[k]
    ensures s[i] + s[j] <= Sum(s)
  {
    var t := s[i := 0][j := 0];
    SumUpdate(s, i, 0);
    SumUpdate(s[i := 0], j, 0);
    SumAtLeast(t);
  }

  lemma SumAtLeast(s: seq<int>)
    requires forall k :: 0 <= k < |s| ==> 0 <= s[k]
    ensures 0 <= Sum(s)
    ensures forall i :: 0 <= i < |s| ==> s[i] <= Sum(s)
  {
    var zeros := seq(|s|, _ => 0);
    SumZero(zeros);
    SumLe(zeros, s);
    forall i | 0 <= i < |s|
      ensures s[i] <= Sum(s)
    {
      SumUpdate(s, i, 0);
      SumLe(zeros, s[i := 0]);
    }
  }
}
