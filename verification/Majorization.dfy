/**
 Comparing two vectors of remaining times by how much of them lies above each threshold.
 The larger vector concentrates the same total work in fewer entries.
 */
module Majorization {
  import opened Sums

  function Over(v: seq<int>, limit: int): (w: seq<int>)
    ensures |w| == |v|
    ensures forall i :: 0 <= i < |v| ==> w[i] == if v[i] > limit then v[i] - limit else 0
  {
    seq(|v|, i requires 0 <= i < |v| => if v[i] > limit then v[i] - limit else 0)
  }

  function Excess(v: seq<int>, limit: int): int {
    Sum(Over(v, limit))
  }

  function Above(v: seq<int>, limit: int): (w: seq<int>)
    ensures |w| == |v|
    ensures forall i :: 0 <= i < |v| ==> w[i] == if v[i] > limit then 1 else 0
  {
    seq(|v|, i requires 0 <= i < |v| => if v[i] > limit then 1 else 0)
  }

  /** How many entries exceed the limit. */
  function Count(v: seq<int>, limit: int): int {
    Sum(Above(v, limit))
  }

  ghost predicate NonNegative(v: seq<int>) {
    forall i :: 0 <= i < |v| ==> 0 <= v[i]
  }

  ghost predicate Majorizes(v: seq<int>, w: seq<int>) {
    && |v| == |w|
    && NonNegative(v) && NonNegative(w)
    && Excess(v, 0) == Excess(w, 0)
    && forall limit: nat :: Excess(w, limit) <= Excess(v, limit)
  }

  lemma CountIsDrop(v: seq<int>, limit: int)
    ensures Excess(v, limit) == Excess(v, limit + 1) + Count(v, limit)
  {
    SumPlus(Over(v, limit + 1), Above(v, limit), Over(v, limit));
  }

  lemma Decrement(v: seq<int>, i: nat, limit: nat)
    requires i < |v| && v[i] > 0
    ensures Excess(v[i := v[i] - 1], limit) == Excess(v, limit) - (if v[i] > limit then 1 else 0)
  {
    var o := Over(v, limit);
    var n := if v[i] > limit then o[i] - 1 else o[i];
    assert Over(v[i := v[i] - 1], limit) == o[i := n];
    SumUpdate(o, i, n);
  }

  /** With no entry strictly between 0 and the limit, the total is the excess plus the limit for each entry above it. */
  lemma TotalOfTall(v: seq<int>, limit: nat)
    requires NonNegative(v)
    requires forall k :: 0 <= k < |v| && v[k] > 0 ==> v[k] > limit
    ensures Excess(v, 0) == Excess(v, limit) + limit * Count(v, limit)
  {
    var u := seq(|v|, k requires 0 <= k < |v| => limit * Above(v, limit)[k]);
    SumScale(limit, Above(v, limit), u);
    SumPlus(Over(v, limit), u, Over(v, 0));
  }

  /** An entry between 0 and the limit adds to that. */
  lemma TotalWithShort(w: seq<int>, j: nat, limit: nat)
    requires NonNegative(w) && j < |w| && 0 < w[j] <= limit
    ensures Excess(w, 0) > Excess(w, limit) + limit * Count(w, limit)
  {
    var u := seq(|w|, k requires 0 <= k < |w| => limit * Above(w, limit)[k]);
    var s := seq(|w|, k requires 0 <= k < |w| => Over(w, limit)[k] + u[k]);
    SumScale(limit, Above(w, limit), u);
    SumPlus(Over(w, limit), u, s);
    SumLt(s, Over(w, 0), j);
  }

  /** Where the majorized vector has a short entry and the other has none, the excess differs strictly. */
  lemma StrictWhereShort(v: seq<int>, w: seq<int>, j: nat, limit: nat)
    requires Majorizes(v, w)
    requires forall k :: 0 <= k < |v| && v[k] > 0 ==> v[k] > limit
    requires j < |w| && 0 < w[j] <= limit
    ensures Excess(w, limit) < Excess(v, limit)
  {
    TotalOfTall(v, limit);
    TotalWithShort(w, j, limit);
    CountIsDrop(v, limit);
    CountIsDrop(w, limit);
    assert Excess(w, limit + 1) <= Excess(v, limit + 1);
    assert Count(v, limit) <= Count(w, limit) ==> limit * Count(v, limit) <= limit * Count(w, limit);
  }

  /** Taking one off the smallest positive entry of v, and one off any of w, keeps the order. */
  lemma ShortestFirstMajorizes(v: seq<int>, w: seq<int>, i: nat, j: nat)
    requires Majorizes(v, w)
    requires i < |v| && v[i] > 0 && forall k :: 0 <= k < |v| && v[k] > 0 ==> v[i] <= v[k]
    requires j < |w| && w[j] > 0
    ensures Majorizes(v[i := v[i] - 1], w[j := w[j] - 1])
  {
    var v', w' := v[i := v[i] - 1], w[j := w[j] - 1];
    Decrement(v, i, 0);
    Decrement(w, j, 0);
    forall limit: nat
      ensures Excess(w', limit) <= Excess(v', limit)
    {
      Decrement(v, i, limit);
      Decrement(w, j, limit);
      if w[j] <= limit < v[i] {
        StrictWhereShort(v, w, j, limit);
      }
    }
  }

  /** u is v with work arriving only where v is zero. */
  ghost predicate Arrives(v: seq<int>, a: seq<int>, u: seq<int>) {
    && |v| == |a| == |u|
    && forall i :: 0 <= i < |v| ==> 0 <= a[i] && 0 <= v[i] && u[i] == v[i] + a[i] && (v[i] == 0 || a[i] == 0)
  }

  lemma ArrivalExcess(v: seq<int>, a: seq<int>, u: seq<int>, limit: nat)
    requires Arrives(v, a, u)
    ensures Excess(u, limit) == Excess(v, limit) + Excess(a, limit)
  {
    SumPlus(Over(v, limit), Over(a, limit), Over(u, limit));
  }

  /** The same arrivals on both sides keep the order. */
  lemma ArrivalsMajorize(v: seq<int>, w: seq<int>, a: seq<int>, v': seq<int>, w': seq<int>)
    requires Majorizes(v, w) && Arrives(v, a, v') && Arrives(w, a, w')
    ensures Majorizes(v', w')
  {
    ArrivalExcess(v, a, v', 0);
    ArrivalExcess(w, a, w', 0);
    forall limit: nat
      ensures Excess(w', limit) <= Excess(v', limit)
    {
      ArrivalExcess(v, a, v', limit);
      ArrivalExcess(w, a, w', limit);
    }
  }

  /** One quantum and the releases after it. */
  lemma QuantumMajorizes(v: seq<int>, w: seq<int>, i: nat, j: nat, a: seq<int>, v': seq<int>, w': seq<int>)
    requires Majorizes(v, w)
    requires i < |v| && v[i] > 0 && forall k :: 0 <= k < |v| && v[k] > 0 ==> v[i] <= v[k]
    requires j < |w| && w[j] > 0
    requires Arrives(v[i := v[i] - 1], a, v') && Arrives(w[j := w[j] - 1], a, w')
    ensures Majorizes(v', w')
  {
    ShortestFirstMajorizes(v, w, i, j);
    ArrivalsMajorize(v[i := v[i] - 1], w[j := w[j] - 1], a, v', w');
  }

  /** The point of it all: the larger vector has no more positive entries. */
  lemma FewerEntries(v: seq<int>, w: seq<int>)
    requires Majorizes(v, w)
    ensures Count(v, 0) <= Count(w, 0)
  {
    CountIsDrop(v, 0);
    CountIsDrop(w, 0);
    assert Excess(w, 1) <= Excess(v, 1);
  }
}
