/**
 Utilisation over integers: with H a common multiple of the periods, a task set's load is the
 work all its tasks release within H quanta, so utilisation is load / H.
 */
module Utilisation {
  import opened Sums
  import opened Tasks
  import opened Engine
  import opened Bookkeeping
  import opened Deadlines
  import opened Feasibility

  ghost predicate CommonMultiple(ts: seq<Task>, h: nat) {
    && h > 0
    && forall i :: 0 <= i < |ts| ==> ts[i].p > 0 && h % ts[i].p == 0
  }

  function Weight(t: Task, h: nat): int
    requires t.p > 0
  {
    t.c * (h / t.p)
  }

  function Weights(ts: seq<Task>, h: nat): (w: seq<int>)
    requires forall i :: 0 <= i < |ts| ==> ts[i].p > 0
    ensures |w| == |ts|
    ensures forall i :: 0 <= i < |ts| ==> w[i] == Weight(ts[i], h)
  {
    seq(|ts|, i requires 0 <= i < |ts| => Weight(ts[i], h))
  }

  function Load(ts: seq<Task>, h: nat): int
    requires forall i :: 0 <= i < |ts| ==> ts[i].p > 0
  {
    Sum(Weights(ts, h))
  }

  // ---------- the product of the periods is such an H ----------

  function Product(ts: seq<Task>): int {
    if ts == [] then 1 else ts[0].p * Product(ts[1..])
  }

  lemma {:induction false} ProductIsMultiple(ts: seq<Task>)
    requires forall i :: 0 <= i < |ts| ==> ts[i].p > 0
    ensures Product(ts) > 0
    ensures forall i :: 0 <= i < |ts| ==> Product(ts) % ts[i].p == 0
  {
    if ts != [] {
      var p, rest := ts[0].p, Product(ts[1..]);
      ProductIsMultiple(ts[1..]);
      ProductIsPositive(p, rest);
      forall i | 0 <= i < |ts|
        ensures (p * rest) % ts[i].p == 0
      {
        if i == 0 {
          MultipleOf(p, rest);
        } else {
          assert ts[i] == ts[1..][i - 1];
          FactorOfMultiple(ts[i].p, rest, p);
        }
      }
    }
  }

  lemma ProductIsPositive(a: int, b: int)
    requires a > 0 && b > 0
    ensures a * b > 0
  {
  }

  lemma MultipleOf(p: int, q: int)
    requires p > 0
    ensures (p * q) % p == 0 && (p * q) / p == q
  {
    var m := p * q;
    assert m == p * (m / p) + m % p;
    assert p * (q - m / p) == m % p;
    var x := q - m / p;
    assert x >= 1 ==> p * x >= p;
    assert x <= -1 ==> p * x <= -p;
  }

  lemma FactorOfMultiple(p: int, rest: int, q: int)
    requires p > 0 && rest % p == 0
    ensures (q * rest) % p == 0
  {
    var m := rest / p;
    assert rest == p * m;
    assert q * rest == p * (q * m);
    MultipleOf(p, q * m);
  }

  // ---------- deadlines at the periods ----------

  /** c jobs at one per period, scaled by H: the arithmetic of a single task. */
  lemma ScaledJobs(t: Task, h: nat, j: int)
    requires t.p > 0 && h % t.p == 0
    ensures h * (j * t.c) == (j * t.p) * Weight(t, h)
  {
    var q := h / t.p;
    assert h == t.p * q;
    calc {
      h * (j * t.c);
      (t.p * q) * (j * t.c);
      (j * t.p) * (t.c * q);
    }
  }

  lemma WeightIsPositive(t: Task, h: nat)
    requires t.WellFormed() && h > 0 && h % t.p == 0
    ensures Weight(t, h) >= 1
  {
    var q := h / t.p;
    assert h == t.p * q;
    assert q <= 0 ==> t.p * q <= 0;
    ProductIsPositive(t.c, q);
  }

  lemma ImplicitDemandOf(t: Task, h: nat, l: nat)
    requires t.WellFormed() && t.d == t.p && h > 0 && h % t.p == 0
    ensures h * (JobsDue(t, l) * t.c) <= l * Weight(t, h)
  {
    WeightIsPositive(t, h);
    var j := JobsDue(t, l);
    ScaledJobs(t, h, j);
    if j > 0 {
      JobsDueMeans(t, l, j - 1);
      assert (j - 1) * t.p + t.p == j * t.p;
    }
    Scaled(j * t.p, l, Weight(t, h));
  }

  lemma LoadBoundsDemand(ts: seq<Task>, h: nat, l: nat)
    requires TaskSet(ts) && CommonMultiple(ts, h)
    requires forall i :: 0 <= i < |ts| ==> ts[i].d == ts[i].p
    ensures h * Demand(ts, l) <= l * Load(ts, h)
  {
    var u := seq(|ts|, i requires 0 <= i < |ts| => h * Demands(ts, l)[i]);
    var v := seq(|ts|, i requires 0 <= i < |ts| => l * Weights(ts, h)[i]);
    SumScale(h, Demands(ts, l), u);
    SumScale(l, Weights(ts, h), v);
    forall i | 0 <= i < |ts|
      ensures u[i] <= v[i]
    {
      ImplicitDemandOf(ts[i], h, l);
    }
    SumLe(u, v);
  }

  lemma DemandOfHyperperiod(ts: seq<Task>, h: nat)
    requires TaskSet(ts) && CommonMultiple(ts, h)
    requires forall i :: 0 <= i < |ts| ==> ts[i].d == ts[i].p
    ensures Demand(ts, h) == Load(ts, h)
  {
    forall i | 0 <= i < |ts|
      ensures Demands(ts, h)[i] == Weights(ts, h)[i]
    {
      var t := ts[i];
      var q := h / t.p;
      assert h == t.p * q && q >= 1 by {
        assert q <= 0 ==> t.p * q <= 0;
      }
      assert h - t.d == t.p * (q - 1);
      MultipleOf(t.p, q - 1);
      assert t.d <= h by {
        Scaled(1, q, t.p);
      }
    }
    assert Demands(ts, h) == Weights(ts, h);
  }

  /** With deadlines at the periods, EDF passes forever if and only if utilisation is at most one. */
  lemma EdfUtilisation(ts: seq<Task>, h: nat)
    requires TaskSet(ts) && CommonMultiple(ts, h)
    requires forall i :: 0 <= i < |ts| ==> ts[i].d == ts[i].p
    ensures PassesForever(EDF, ts) <==> Load(ts, h) <= h
  {
    EdfIsExact(ts);
    if DemandFits(ts) {
      DemandOfHyperperiod(ts, h);
      assert Demand(ts, h) <= h;
    }
    if Load(ts, h) <= h {
      forall l: nat
        ensures Demand(ts, l) <= l
      {
        LoadBoundsDemand(ts, h, l);
        FitsWhenScaled(h, Demand(ts, l), l, Load(ts, h));
      }
    }
  }

  /** For every set with such deadlines, the product of the periods settles the question. */
  lemma EdfUtilisationByProduct(ts: seq<Task>)
    requires TaskSet(ts)
    requires forall i :: 0 <= i < |ts| ==> ts[i].d == ts[i].p
    ensures Product(ts) > 0 && (PassesForever(EDF, ts) <==> Load(ts, Product(ts)) <= Product(ts))
  {
    ProductIsMultiple(ts);
    EdfUtilisation(ts, Product(ts));
  }

  lemma FitsWhenScaled(h: nat, demand: int, l: nat, load: int)
    requires 0 < h && load <= h && h * demand <= l * load
    ensures demand <= l
  {
    assert l * load <= l * h;
    assert demand > l ==> h * demand >= h * (l + 1) > h * l;
  }

  // ---------- overload ----------

  function Leads(ts: seq<Task>, h: nat): (w: seq<int>)
    requires forall i :: 0 <= i < |ts| ==> ts[i].p > 0
    ensures |w| == |ts|
    ensures forall i :: 0 <= i < |ts| ==> w[i] == ts[i].d * Weight(ts[i], h)
  {
    seq(|ts|, i requires 0 <= i < |ts| => ts[i].d * Weight(ts[i], h))
  }

  /** The head start the relative deadlines give an overloaded set before it must be rejected. */
  function Lead(ts: seq<Task>, h: nat): int
    requires forall i :: 0 <= i < |ts| ==> ts[i].p > 0
  {
    Sum(Leads(ts, h))
  }

  /** A task that is keeping up at time t has had its share executed, up to the lead of its deadline. */
  lemma ShareIsDone(t: Task, h: nat, k: nat, now: int)
    requires t.WellFormed() && h > 0 && h % t.p == 0
    requires now < Due(t, k)
    ensures now * Weight(t, h) < h * (k * t.c) + t.d * Weight(t, h)
  {
    var w := Weight(t, h);
    WeightIsPositive(t, h);
    ScaledJobs(t, h, k);
    Ahead(now, k * t.p, t.d, w);
  }

  lemma Ahead(now: int, released: int, d: int, w: int)
    requires now < released + d && w >= 1
    ensures now * w < released * w + d * w
  {
    Scaled(now + 1, released + d, w);
    assert (now + 1) * w == now * w + w;
    assert (released + d) * w == released * w + d * w;
  }

  /** Summed over the tasks: at a passed check every task has had its share executed, up to its lead. */
  lemma SharesAreDone(alg: Alg, ts: seq<Task>, h: nat, n: nat, f: seq<int>)
    requires TaskSet(ts) && CommonMultiple(ts, h)
    requires Check(alg, At(alg, ts, n).tasks)
    requires |f| == |ts| && forall i :: 0 <= i < |ts| ==> f[i] == At(alg, ts, n).done[i] * ts[i].c
    ensures At(alg, ts, n).now * Load(ts, h) < h * Sum(f) + Lead(ts, h)
  {
    var now, done := At(alg, ts, n).now, At(alg, ts, n).done;
    assert |done| == |ts|;
    hide At, Check, TaskSet;
    var u := seq(|ts|, i requires 0 <= i < |ts| => now * Weights(ts, h)[i]);
    var v := seq(|ts|, i requires 0 <= i < |ts| => h * f[i]);
    var s := seq(|ts|, i requires 0 <= i < |ts| => v[i] + Leads(ts, h)[i]);
    SumScale(now, Weights(ts, h), u);
    SumScale(h, f, v);
    SumPlus(v, Leads(ts, h), s);
    forall i | 0 <= i < |ts|
      ensures u[i] < s[i]
    {
      WellFormedAt(ts, i);
      JobsKeepUp(alg, ts, n, i);
      ShareIsDone(ts[i], h, done[i], now);
    }
    WellFormedAt(ts, 0);
    SumLt(u, s, 0);
  }

  lemma WellFormedAt(ts: seq<Task>, i: nat)
    requires TaskSet(ts) && (i == 0 || i < |ts|)
    ensures i < |ts| && ts[i].WellFormed()
  {
  }

  lemma Exceeds(now: int, load: int, h: nat, done: int, lead: int)
    requires now * load < h * done + lead && done <= now
    ensures now * (load - h) < lead
  {
    Scaled(done, now, h);
    assert now * (load - h) == now * load - h * now;
  }

  /** A passed check at time T bounds T: an overload cannot hide for longer. */
  lemma OverloadBound(alg: Alg, ts: seq<Task>, h: nat, n: nat)
    requires TaskSet(ts) && CommonMultiple(ts, h)
    requires Check(alg, At(alg, ts, n).tasks)
    ensures At(alg, ts, n).now * (Load(ts, h) - h) < Lead(ts, h)
  {
    var f := seq(|ts|, i requires 0 <= i < |ts| => At(alg, ts, n).done[i] * ts[i].c);
    hide *;
    SharesAreDone(alg, ts, h, n, f);
    WorkWithinTime(alg, ts, n, f);
    Exceeds(At(alg, ts, n).now, Load(ts, h), h, Sum(f), Lead(ts, h));
  }

  lemma TooLate(now: int, over: int, lead: int)
    requires now >= 0 && now >= lead && over >= 1
    ensures now * over >= lead
  {
  }

  /** Utilisation above one is rejected by every algorithm, at the latest by the check made after Lead quanta. */
  lemma OverloadIsRejected(alg: Alg, ts: seq<Task>, h: nat, n: nat)
    requires TaskSet(ts) && CommonMultiple(ts, h)
    requires Load(ts, h) > h
    requires At(alg, ts, n).now >= Lead(ts, h)
    ensures !Check(alg, At(alg, ts, n).tasks)
  {
    var now, over := At(alg, ts, n).now, Load(ts, h) - h;
    hide *;
    assert now >= 0 by {
      RunKeepsBooks(alg, ts, n);
    }
    TooLate(now, over, Lead(ts, h));
    if Check(alg, At(alg, ts, n).tasks) {
      OverloadBound(alg, ts, h, n);
    }
  }

  /** So no algorithm passes a set of utilisation above one for more than Lead checks. */
  lemma PassingNeedsUtilisation(alg: Alg, ts: seq<Task>, h: nat)
    requires TaskSet(ts) && CommonMultiple(ts, h)
    ensures 0 <= Lead(ts, h)
    ensures Passes(alg, ts, Lead(ts, h) + 1) ==> Load(ts, h) <= h
  {
    hide At, Check, Books;
    forall i | 0 <= i < |ts|
      ensures 0 <= Leads(ts, h)[i]
    {
      WeightIsPositive(ts[i], h);
      ProductIsPositive(ts[i].d, Weight(ts[i], h));
    }
    SumAtLeast(Leads(ts, h));
    var n := Lead(ts, h);
    if Passes(alg, ts, n + 1) && Load(ts, h) > h {
      RunKeepsBooks(alg, ts, n);
      OverloadIsRejected(alg, ts, h, n);
    }
  }
}
