/** What SCT makes of the first two registered sets: its runs over a hyperperiod, quantum by quantum. */
module Verdicts {
  import opened Tasks
  import opened Engine
  import opened Utilisation
  import opened Simulation
  import opened Registered

  /** Who runs, of up to five tasks with so much left and none with more than 2: the first of the shortest; 5 if nobody. */
  function Choice(a: nat, b: nat, c: nat, d: nat, e: nat): nat {
    if a == 1 then 0 else if b == 1 then 1 else if c == 1 then 2 else if d == 1 then 3 else if e == 1 then 4
    else if a > 0 then 0 else if b > 0 then 1 else if c > 0 then 2 else if d > 0 then 3 else if e > 0 then 4 else 5
  }

  /** What the check asks of task i, due at the end of its period, when h is the head. */
  predicate Fit(t: nat, p: nat, left: nat, h: nat, i: nat)
    requires p > 0
  {
    left == 0 || (if h == i then left <= p - t % p else left < p - t % p)
  }

  /** What task i has left a quantum later. */
  function Then(t: nat, c: nat, p: nat, left: nat, h: nat, i: nat): nat
    requires p > 0
  {
    if (t + 1) % p == 0 then c else if h == i && left > 0 then left - 1 else left
  }

  function Nth(l: seq<int>, i: nat): nat {
    if i < |l| && l[i] >= 0 then l[i] else 0
  }

  lemma ChoicePicks(l: seq<int>, h: nat)
    requires |l| <= 5 && forall i :: 0 <= i < |l| ==> 0 <= l[i] <= 2
    requires h == Choice(Nth(l, 0), Nth(l, 1), Nth(l, 2), Nth(l, 3), Nth(l, 4))
    ensures if h < |l| then Picks(l, h) else forall i :: 0 <= i < |l| ==> l[i] == 0
  {
  }

  /** A job that fits is complete when the next is released. */
  lemma EndsWithPeriod(t: nat, c: nat, p: nat, left: nat, h: nat, i: nat)
    requires p > 0 && Fit(t, p, left, h, i)
    ensures Then(t, c, p, left, h, i) == (if h == i && left > 0 then left - 1 else left) + if (t + 1) % p == 0 then c else 0
  {
    if (t + 1) % p == 0 {
      LastQuantumOf(t, p);
    }
  }

  lemma LastQuantumOf(t: nat, p: nat)
    requires p > 0 && (t + 1) % p == 0
    ensures t % p == p - 1
  {
    var q, s := t / p, (t + 1) / p;
    assert t == p * q + t % p && t + 1 == p * s;
    var x := s - q;
    assert p * x == t % p + 1;
    assert x <= 0 ==> p * x <= 0;
    assert x >= 2 ==> p * x >= 2 * p;
  }

  lemma FitsAll(ts: seq<Task>, t: nat, l: seq<int>, h: nat)
    requires |l| == |ts| && forall i :: 0 <= i < |ts| ==> ts[i].d == ts[i].p > 0 && l[i] >= 0
    requires forall i: nat :: i < |ts| ==> Fit(t, ts[i].p, l[i], h, i)
    ensures Fits(TimesLeft(ts, t), l, h)
  {
    forall i: nat | i < |ts|
      ensures l[i] > 0 ==> if i == h then l[i] <= TimesLeft(ts, t)[i] else l[i] < TimesLeft(ts, t)[i]
    {
      ElapsedIs(t, ts[i].p);
    }
  }

  /** One quantum: u comes after l if the choice fits. */
  lemma TickOf(ts: seq<Task>, n: nat, t: nat, l: seq<int>, h: nat, u: seq<int>) returns (n': nat)
    requires TaskSet(ts) && Follows(ts, n, t, l) && |l| == |ts| == |u| <= 5
    requires forall i :: 0 <= i < |ts| ==> ts[i].c <= 2 && ts[i].d == ts[i].p > 0 && ts[i].c >= 0 && l[i] >= 0
    requires h == Choice(Nth(l, 0), Nth(l, 1), Nth(l, 2), Nth(l, 3), Nth(l, 4))
    requires forall i: nat :: i < |ts| ==> Fit(t, ts[i].p, l[i], h, i) && u[i] == Then(t, ts[i].c, ts[i].p, l[i], h, i)
    ensures Follows(ts, n', t + 1, u)
  {
    hide Follows, Choice, TaskSet, Nth;
    LeftIsWithin(ts, n, t, l);
    ChoicePicks(l, h);
    forall i: nat | i < |ts|
      ensures u[i] == (if i == h && l[i] > 0 then l[i] - 1 else l[i]) + if (t + 1) % ts[i].p == 0 then ts[i].c else 0
    {
      EndsWithPeriod(t, ts[i].c, ts[i].p, l[i], h, i);
    }
    hide Then;
    if h < |l| {
      FitsAll(ts, t, l, h);
      BusyTick(ts, n, t, l, h, u);
      n' := n + 1;
    } else {
      n' := IdleTick(ts, n, t, l, u);
    }
  }

  // ---------- set 1 ----------

  /** With a to e left at time t, the checks of set 1 pass until time u, when a' to e' are left. */
  predicate Leads1(t: nat, a: nat, b: nat, c: nat, d: nat, e: nat, u: nat, a': nat, b': nat, c': nat, d': nat, e': nat)
    decreases u - t
  {
    if t >= u then t == u && a == a' && b == b' && c == c' && d == d' && e == e'
    else
      && Fit(t, 7, a, Choice(a, b, c, d, e), 0) && Fit(t, 5, b, Choice(a, b, c, d, e), 1)
      && Fit(t, 8, c, Choice(a, b, c, d, e), 2) && Fit(t, 10, d, Choice(a, b, c, d, e), 3)
      && Fit(t, 16, e, Choice(a, b, c, d, e), 4)
      && Leads1(t + 1, Then(t, 1, 7, a, Choice(a, b, c, d, e), 0), Then(t, 2, 5, b, Choice(a, b, c, d, e), 1),
                Then(t, 1, 8, c, Choice(a, b, c, d, e), 2), Then(t, 1, 10, d, Choice(a, b, c, d, e), 3),
                Then(t, 2, 16, e, Choice(a, b, c, d, e), 4), u, a', b', c', d', e')
  }

  ghost predicate Follows1(n: nat, t: nat, a: nat, b: nat, c: nat, d: nat, e: nat) {
    Follows(SET1, n, t, [a, b, c, d, e])
  }

  lemma Tick1(n: nat, t: nat, a: nat, b: nat, c: nat, d: nat, e: nat, h: nat) returns (n': nat)
    requires Follows1(n, t, a, b, c, d, e) && h == Choice(a, b, c, d, e)
    requires Fit(t, 7, a, h, 0) && Fit(t, 5, b, h, 1) && Fit(t, 8, c, h, 2) && Fit(t, 10, d, h, 3) && Fit(t, 16, e, h, 4)
    ensures Follows1(n', t + 1, Then(t, 1, 7, a, h, 0), Then(t, 2, 5, b, h, 1), Then(t, 1, 8, c, h, 2),
                     Then(t, 1, 10, d, h, 3), Then(t, 2, 16, e, h, 4))
  {
    hide Follows, Choice, Fit, Then, Load, CommonMultiple;
    Load1();
    n' := TickOf(SET1, n, t, [a, b, c, d, e], h,
                 [Then(t, 1, 7, a, h, 0), Then(t, 2, 5, b, h, 1), Then(t, 1, 8, c, h, 2), Then(t, 1, 10, d, h, 3),
                  Then(t, 2, 16, e, h, 4)]);
  }

  lemma {:induction false} Run1(n: nat, t: nat, a: nat, b: nat, c: nat, d: nat, e: nat,
                                u: nat, a': nat, b': nat, c': nat, d': nat, e': nat) returns (n': nat)
    requires Follows1(n, t, a, b, c, d, e) && Leads1(t, a, b, c, d, e, u, a', b', c', d', e')
    ensures Follows1(n', u, a', b', c', d', e')
    decreases u - t
  {
    hide Follows1, Choice, Fit, Then;
    n' := n;
    if t < u {
      var h := Choice(a, b, c, d, e);
      n' := Tick1(n', t, a, b, c, d, e, h);
      n' := Run1(n', t + 1, Then(t, 1, 7, a, h, 0), Then(t, 2, 5, b, h, 1), Then(t, 1, 8, c, h, 2),
                 Then(t, 1, 10, d, h, 3), Then(t, 2, 16, e, h, 4), u, a', b', c', d', e');
    }
  }

  // The run of set 1, span by span, to the end of its hyperperiod.

  lemma Set1From0(n: nat) returns (n': nat)
    requires Follows1(n, 0, 1, 2, 1, 1, 2)
    ensures Follows1(n', 560, 1, 2, 1, 1, 2)
  {
    hide Follows1;
    n' := Run1(n, 0, 1, 2, 1, 1, 2, 10, 0, 2, 0, 1, 1);
    n' := Set1From10(n');
  }

  lemma Set1From10(n: nat) returns (n': nat)
    requires Follows1(n, 10, 0, 2, 0, 1, 1)
    ensures Follows1(n', 560, 1, 2, 1, 1, 2)
  {
    hide Follows1;
    n' := Run1(n, 10, 0, 2, 0, 1, 1, 20, 0, 2, 0, 1, 0);
    n' := Set1From20(n');
  }

  lemma Set1From20(n: nat) returns (n': nat)
    requires Follows1(n, 20, 0, 2, 0, 1, 0)
    ensures Follows1(n', 560, 1, 2, 1, 1, 2)
  {
    hide Follows1;
    n' := Run1(n, 20, 0, 2, 0, 1, 0, 30, 0, 2, 0, 1, 0);
    n' := Set1From30(n');
  }

  lemma Set1From30(n: nat) returns (n': nat)
    requires Follows1(n, 30, 0, 2, 0, 1, 0)
    ensures Follows1(n', 560, 1, 2, 1, 1, 2)
  {
    hide Follows1;
    n' := Run1(n, 30, 0, 2, 0, 1, 0, 40, 0, 2, 1, 1, 0);
    n' := Set1From40(n');
  }

  lemma Set1From40(n: nat) returns (n': nat)
    requires Follows1(n, 40, 0, 2, 1, 1, 0)
    ensures Follows1(n', 560, 1, 2, 1, 1, 2)
  {
    hide Follows1;
    n' := Run1(n, 40, 0, 2, 1, 1, 0, 50, 0, 2, 0, 1, 2);
    n' := Set1From50(n');
  }

  lemma Set1From50(n: nat) returns (n': nat)
    requires Follows1(n, 50, 0, 2, 0, 1, 2)
    ensures Follows1(n', 560, 1, 2, 1, 1, 2)
  {
    hide Follows1;
    n' := Run1(n, 50, 0, 2, 0, 1, 2, 60, 0, 2, 0, 1, 0);
    n' := Set1From60(n');
  }

  lemma Set1From60(n: nat) returns (n': nat)
    requires Follows1(n, 60, 0, 2, 0, 1, 0)
    ensures Follows1(n', 560, 1, 2, 1, 1, 2)
  {
    hide Follows1;
    n' := Run1(n, 60, 0, 2, 0, 1, 0, 70, 1, 2, 0, 1, 0);
    n' := Set1From70(n');
  }

  lemma Set1From70(n: nat) returns (n': nat)
    requires Follows1(n, 70, 1, 2, 0, 1, 0)
    ensures Follows1(n', 560, 1, 2, 1, 1, 2)
  {
    hide Follows1;
    n' := Run1(n, 70, 1, 2, 0, 1, 0, 80, 0, 2, 1, 1, 2);
    n' := Set1From80(n');
  }

  lemma Set1From80(n: nat) returns (n': nat)
    requires Follows1(n, 80, 0, 2, 1, 1, 2)
    ensures Follows1(n', 560, 1, 2, 1, 1, 2)
  {
    hide Follows1;
    n' := Run1(n, 80, 0, 2, 1, 1, 2, 90, 0, 2, 0, 1, 0);
    n' := Set1From90(n');
  }

  lemma Set1From90(n: nat) returns (n': nat)
    requires Follows1(n, 90, 0, 2, 0, 1, 0)
    ensures Follows1(n', 560, 1, 2, 1, 1, 2)
  {
    hide Follows1;
    n' := Run1(n, 90, 0, 2, 0, 1, 0, 100, 0, 2, 0, 1, 1);
    n' := Set1From100(n');
  }

  lemma Set1From100(n: nat) returns (n': nat)
    requires Follows1(n, 100, 0, 2, 0, 1, 1)
    ensures Follows1(n', 560, 1, 2, 1, 1, 2)
  {
    hide Follows1;
    n' := Run1(n, 100, 0, 2, 0, 1, 1, 110, 0, 2, 0, 1, 0);
    n' := Set1From110(n');
  }

  lemma Set1From110(n: nat) returns (n': nat)
    requires Follows1(n, 110, 0, 2, 0, 1, 0)
    ensures Follows1(n', 560, 1, 2, 1, 1, 2)
  {
    hide Follows1;
    n' := Run1(n, 110, 0, 2, 0, 1, 0, 120, 0, 2, 1, 1, 0);
    n' := Set1From120(n');
  }

  lemma Set1From120(n: nat) returns (n': nat)
    requires Follows1(n, 120, 0, 2, 1, 1, 0)
    ensures Follows1(n', 560, 1, 2, 1, 1, 2)
  {
    hide Follows1;
    n' := Run1(n, 120, 0, 2, 1, 1, 0, 130, 0, 2, 0, 1, 1);
    n' := Set1From130(n');
  }

  lemma Set1From130(n: nat) returns (n': nat)
    requires Follows1(n, 130, 0, 2, 0, 1, 1)
    ensures Follows1(n', 560, 1, 2, 1, 1, 2)
  {
    hide Follows1;
    n' := Run1(n, 130, 0, 2, 0, 1, 1, 140, 1, 2, 0, 1, 0);
    n' := Set1From140(n');
  }

  lemma Set1From140(n: nat) returns (n': nat)
    requires Follows1(n, 140, 1, 2, 0, 1, 0)
    ensures Follows1(n', 560, 1, 2, 1, 1, 2)
  {
    hide Follows1;
    n' := Run1(n, 140, 1, 2, 0, 1, 0, 150, 0, 2, 0, 1, 0);
    n' := Set1From150(n');
  }

  lemma Set1From150(n: nat) returns (n': nat)
    requires Follows1(n, 150, 0, 2, 0, 1, 0)
    ensures Follows1(n', 560, 1, 2, 1, 1, 2)
  {
    hide Follows1;
    n' := Run1(n, 150, 0, 2, 0, 1, 0, 160, 0, 2, 1, 1, 2);
    n' := Set1From160(n');
  }

  lemma Set1From160(n: nat) returns (n': nat)
    requires Follows1(n, 160, 0, 2, 1, 1, 2)
    ensures Follows1(n', 560, 1, 2, 1, 1, 2)
  {
    hide Follows1;
    n' := Run1(n, 160, 0, 2, 1, 1, 2, 170, 0, 2, 0, 1, 1);
    n' := Set1From170(n');
  }

  lemma Set1From170(n: nat) returns (n': nat)
    requires Follows1(n, 170, 0, 2, 0, 1, 1)
    ensures Follows1(n', 560, 1, 2, 1, 1, 2)
  {
    hide Follows1;
    n' := Run1(n, 170, 0, 2, 0, 1, 1, 180, 0, 2, 0, 1, 1);
    n' := Set1From180(n');
  }

  lemma Set1From180(n: nat) returns (n': nat)
    requires Follows1(n, 180, 0, 2, 0, 1, 1)
    ensures Follows1(n', 560, 1, 2, 1, 1, 2)
  {
    hide Follows1;
    n' := Run1(n, 180, 0, 2, 0, 1, 1, 190, 0, 2, 0, 1, 0);
    n' := Set1From190(n');
  }

  lemma Set1From190(n: nat) returns (n': nat)
    requires Follows1(n, 190, 0, 2, 0, 1, 0)
    ensures Follows1(n', 560, 1, 2, 1, 1, 2)
  {
    hide Follows1;
    n' := Run1(n, 190, 0, 2, 0, 1, 0, 200, 0, 2, 1, 1, 0);
    n' := Set1From200(n');
  }

  lemma Set1From200(n: nat) returns (n': nat)
    requires Follows1(n, 200, 0, 2, 1, 1, 0)
    ensures Follows1(n', 560, 1, 2, 1, 1, 2)
  {
    hide Follows1;
    n' := Run1(n, 200, 0, 2, 1, 1, 0, 210, 1, 2, 0, 1, 1);
    n' := Set1From210(n');
  }

  lemma Set1From210(n: nat) returns (n': nat)
    requires Follows1(n, 210, 1, 2, 0, 1, 1)
    ensures Follows1(n', 560, 1, 2, 1, 1, 2)
  {
    hide Follows1;
    n' := Run1(n, 210, 1, 2, 0, 1, 1, 220, 0, 2, 0, 1, 0);
    n' := Set1From220(n');
  }

  lemma Set1From220(n: nat) returns (n': nat)
    requires Follows1(n, 220, 0, 2, 0, 1, 0)
    ensures Follows1(n', 560, 1, 2, 1, 1, 2)
  {
    hide Follows1;
    n' := Run1(n, 220, 0, 2, 0, 1, 0, 230, 0, 2, 0, 1, 0);
    n' := Set1From230(n');
  }

  lemma Set1From230(n: nat) returns (n': nat)
    requires Follows1(n, 230, 0, 2, 0, 1, 0)
    ensures Follows1(n', 560, 1, 2, 1, 1, 2)
  {
    hide Follows1;
    n' := Run1(n, 230, 0, 2, 0, 1, 0, 240, 0, 2, 1, 1, 2);
    n' := Set1From240(n');
  }

  lemma Set1From240(n: nat) returns (n': nat)
    requires Follows1(n, 240, 0, 2, 1, 1, 2)
    ensures Follows1(n', 560, 1, 2, 1, 1, 2)
  {
    hide Follows1;
    n' := Run1(n, 240, 0, 2, 1, 1, 2, 250, 0, 2, 0, 1, 0);
    n' := Set1From250(n');
  }

  lemma Set1From250(n: nat) returns (n': nat)
    requires Follows1(n, 250, 0, 2, 0, 1, 0)
    ensures Follows1(n', 560, 1, 2, 1, 1, 2)
  {
    hide Follows1;
    n' := Run1(n, 250, 0, 2, 0, 1, 0, 260, 0, 2, 0, 1, 1);
    n' := Set1From260(n');
  }

  lemma Set1From260(n: nat) returns (n': nat)
    requires Follows1(n, 260, 0, 2, 0, 1, 1)
    ensures Follows1(n', 560, 1, 2, 1, 1, 2)
  {
    hide Follows1;
    n' := Run1(n, 260, 0, 2, 0, 1, 1, 270, 0, 2, 0, 1, 0);
    n' := Set1From270(n');
  }

  lemma Set1From270(n: nat) returns (n': nat)
    requires Follows1(n, 270, 0, 2, 0, 1, 0)
    ensures Follows1(n', 560, 1, 2, 1, 1, 2)
  {
    hide Follows1;
    n' := Run1(n, 270, 0, 2, 0, 1, 0, 280, 1, 2, 1, 1, 0);
    n' := Set1From280(n');
  }

  lemma Set1From280(n: nat) returns (n': nat)
    requires Follows1(n, 280, 1, 2, 1, 1, 0)
    ensures Follows1(n', 560, 1, 2, 1, 1, 2)
  {
    hide Follows1;
    n' := Run1(n, 280, 1, 2, 1, 1, 0, 290, 0, 2, 0, 1, 1);
    n' := Set1From290(n');
  }

  lemma Set1From290(n: nat) returns (n': nat)
    requires Follows1(n, 290, 0, 2, 0, 1, 1)
    ensures Follows1(n', 560, 1, 2, 1, 1, 2)
  {
    hide Follows1;
    n' := Run1(n, 290, 0, 2, 0, 1, 1, 300, 0, 2, 0, 1, 0);
    n' := Set1From300(n');
  }

  lemma Set1From300(n: nat) returns (n': nat)
    requires Follows1(n, 300, 0, 2, 0, 1, 0)
    ensures Follows1(n', 560, 1, 2, 1, 1, 2)
  {
    hide Follows1;
    n' := Run1(n, 300, 0, 2, 0, 1, 0, 310, 0, 2, 0, 1, 0);
    n' := Set1From310(n');
  }

  lemma Set1From310(n: nat) returns (n': nat)
    requires Follows1(n, 310, 0, 2, 0, 1, 0)
    ensures Follows1(n', 560, 1, 2, 1, 1, 2)
  {
    hide Follows1;
    n' := Run1(n, 310, 0, 2, 0, 1, 0, 320, 0, 2, 1, 1, 2);
    n' := Set1From320(n');
  }

  lemma Set1From320(n: nat) returns (n': nat)
    requires Follows1(n, 320, 0, 2, 1, 1, 2)
    ensures Follows1(n', 560, 1, 2, 1, 1, 2)
  {
    hide Follows1;
    n' := Run1(n, 320, 0, 2, 1, 1, 2, 330, 0, 2, 0, 1, 1);
    n' := Set1From330(n');
  }

  lemma Set1From330(n: nat) returns (n': nat)
    requires Follows1(n, 330, 0, 2, 0, 1, 1)
    ensures Follows1(n', 560, 1, 2, 1, 1, 2)
  {
    hide Follows1;
    n' := Run1(n, 330, 0, 2, 0, 1, 1, 340, 0, 2, 0, 1, 1);
    n' := Set1From340(n');
  }

  lemma Set1From340(n: nat) returns (n': nat)
    requires Follows1(n, 340, 0, 2, 0, 1, 1)
    ensures Follows1(n', 560, 1, 2, 1, 1, 2)
  {
    hide Follows1;
    n' := Run1(n, 340, 0, 2, 0, 1, 1, 350, 1, 2, 0, 1, 0);
    n' := Set1From350(n');
  }

  lemma Set1From350(n: nat) returns (n': nat)
    requires Follows1(n, 350, 1, 2, 0, 1, 0)
    ensures Follows1(n', 560, 1, 2, 1, 1, 2)
  {
    hide Follows1;
    n' := Run1(n, 350, 1, 2, 0, 1, 0, 360, 0, 2, 1, 1, 0);
    n' := Set1From360(n');
  }

  lemma Set1From360(n: nat) returns (n': nat)
    requires Follows1(n, 360, 0, 2, 1, 1, 0)
    ensures Follows1(n', 560, 1, 2, 1, 1, 2)
  {
    hide Follows1;
    n' := Run1(n, 360, 0, 2, 1, 1, 0, 370, 0, 2, 0, 1, 1);
    n' := Set1From370(n');
  }

  lemma Set1From370(n: nat) returns (n': nat)
    requires Follows1(n, 370, 0, 2, 0, 1, 1)
    ensures Follows1(n', 560, 1, 2, 1, 1, 2)
  {
    hide Follows1;
    n' := Run1(n, 370, 0, 2, 0, 1, 1, 380, 0, 2, 0, 1, 0);
    n' := Set1From380(n');
  }

  lemma Set1From380(n: nat) returns (n': nat)
    requires Follows1(n, 380, 0, 2, 0, 1, 0)
    ensures Follows1(n', 560, 1, 2, 1, 1, 2)
  {
    hide Follows1;
    n' := Run1(n, 380, 0, 2, 0, 1, 0, 390, 0, 2, 0, 1, 0);
    n' := Set1From390(n');
  }

  lemma Set1From390(n: nat) returns (n': nat)
    requires Follows1(n, 390, 0, 2, 0, 1, 0)
    ensures Follows1(n', 560, 1, 2, 1, 1, 2)
  {
    hide Follows1;
    n' := Run1(n, 390, 0, 2, 0, 1, 0, 400, 0, 2, 1, 1, 2);
    n' := Set1From400(n');
  }

  lemma Set1From400(n: nat) returns (n': nat)
    requires Follows1(n, 400, 0, 2, 1, 1, 2)
    ensures Follows1(n', 560, 1, 2, 1, 1, 2)
  {
    hide Follows1;
    n' := Run1(n, 400, 0, 2, 1, 1, 2, 410, 0, 2, 0, 1, 0);
    n' := Set1From410(n');
  }

  lemma Set1From410(n: nat) returns (n': nat)
    requires Follows1(n, 410, 0, 2, 0, 1, 0)
    ensures Follows1(n', 560, 1, 2, 1, 1, 2)
  {
    hide Follows1;
    n' := Run1(n, 410, 0, 2, 0, 1, 0, 420, 1, 2, 0, 1, 0);
    n' := Set1From420(n');
  }

  lemma Set1From420(n: nat) returns (n': nat)
    requires Follows1(n, 420, 1, 2, 0, 1, 0)
    ensures Follows1(n', 560, 1, 2, 1, 1, 2)
  {
    hide Follows1;
    n' := Run1(n, 420, 1, 2, 0, 1, 0, 430, 0, 2, 0, 1, 0);
    n' := Set1From430(n');
  }

  lemma Set1From430(n: nat) returns (n': nat)
    requires Follows1(n, 430, 0, 2, 0, 1, 0)
    ensures Follows1(n', 560, 1, 2, 1, 1, 2)
  {
    hide Follows1;
    n' := Run1(n, 430, 0, 2, 0, 1, 0, 440, 0, 2, 1, 1, 0);
    n' := Set1From440(n');
  }

  lemma Set1From440(n: nat) returns (n': nat)
    requires Follows1(n, 440, 0, 2, 1, 1, 0)
    ensures Follows1(n', 560, 1, 2, 1, 1, 2)
  {
    hide Follows1;
    n' := Run1(n, 440, 0, 2, 1, 1, 0, 450, 0, 2, 0, 1, 2);
    n' := Set1From450(n');
  }

  lemma Set1From450(n: nat) returns (n': nat)
    requires Follows1(n, 450, 0, 2, 0, 1, 2)
    ensures Follows1(n', 560, 1, 2, 1, 1, 2)
  {
    hide Follows1;
    n' := Run1(n, 450, 0, 2, 0, 1, 2, 460, 0, 2, 0, 1, 0);
    n' := Set1From460(n');
  }

  lemma Set1From460(n: nat) returns (n': nat)
    requires Follows1(n, 460, 0, 2, 0, 1, 0)
    ensures Follows1(n', 560, 1, 2, 1, 1, 2)
  {
    hide Follows1;
    n' := Run1(n, 460, 0, 2, 0, 1, 0, 470, 0, 2, 0, 1, 0);
    n' := Set1From470(n');
  }

  lemma Set1From470(n: nat) returns (n': nat)
    requires Follows1(n, 470, 0, 2, 0, 1, 0)
    ensures Follows1(n', 560, 1, 2, 1, 1, 2)
  {
    hide Follows1;
    n' := Run1(n, 470, 0, 2, 0, 1, 0, 480, 0, 2, 1, 1, 2);
    n' := Set1From480(n');
  }

  lemma Set1From480(n: nat) returns (n': nat)
    requires Follows1(n, 480, 0, 2, 1, 1, 2)
    ensures Follows1(n', 560, 1, 2, 1, 1, 2)
  {
    hide Follows1;
    n' := Run1(n, 480, 0, 2, 1, 1, 2, 490, 1, 2, 0, 1, 0);
    n' := Set1From490(n');
  }

  lemma Set1From490(n: nat) returns (n': nat)
    requires Follows1(n, 490, 1, 2, 0, 1, 0)
    ensures Follows1(n', 560, 1, 2, 1, 1, 2)
  {
    hide Follows1;
    n' := Run1(n, 490, 1, 2, 0, 1, 0, 500, 0, 2, 0, 1, 1);
    n' := Set1From500(n');
  }

  lemma Set1From500(n: nat) returns (n': nat)
    requires Follows1(n, 500, 0, 2, 0, 1, 1)
    ensures Follows1(n', 560, 1, 2, 1, 1, 2)
  {
    hide Follows1;
    n' := Run1(n, 500, 0, 2, 0, 1, 1, 510, 0, 2, 0, 1, 0);
    n' := Set1From510(n');
  }

  lemma Set1From510(n: nat) returns (n': nat)
    requires Follows1(n, 510, 0, 2, 0, 1, 0)
    ensures Follows1(n', 560, 1, 2, 1, 1, 2)
  {
    hide Follows1;
    n' := Run1(n, 510, 0, 2, 0, 1, 0, 520, 0, 2, 1, 1, 0);
    n' := Set1From520(n');
  }

  lemma Set1From520(n: nat) returns (n': nat)
    requires Follows1(n, 520, 0, 2, 1, 1, 0)
    ensures Follows1(n', 560, 1, 2, 1, 1, 2)
  {
    hide Follows1;
    n' := Run1(n, 520, 0, 2, 1, 1, 0, 530, 0, 2, 0, 1, 1);
    n' := Set1From530(n');
  }

  lemma Set1From530(n: nat) returns (n': nat)
    requires Follows1(n, 530, 0, 2, 0, 1, 1)
    ensures Follows1(n', 560, 1, 2, 1, 1, 2)
  {
    hide Follows1;
    n' := Run1(n, 530, 0, 2, 0, 1, 1, 540, 0, 2, 0, 1, 0);
    n' := Set1From540(n');
  }

  lemma Set1From540(n: nat) returns (n': nat)
    requires Follows1(n, 540, 0, 2, 0, 1, 0)
    ensures Follows1(n', 560, 1, 2, 1, 1, 2)
  {
    hide Follows1;
    n' := Run1(n, 540, 0, 2, 0, 1, 0, 550, 0, 2, 0, 1, 0);
    n' := Set1From550(n');
  }

  lemma Set1From550(n: nat) returns (n': nat)
    requires Follows1(n, 550, 0, 2, 0, 1, 0)
    ensures Follows1(n', 560, 1, 2, 1, 1, 2)
  {
    hide Follows1;
    n' := Run1(n, 550, 0, 2, 0, 1, 0, 560, 1, 2, 1, 1, 2);
  }

  lemma FitsAtEnd1()
    ensures |SET1| == 5 && (forall i :: 0 <= i < |SET1| ==> SET1[i].p > 0)
    ensures Picks([1, 2, 1, 1, 2], 0) && Fits(TimesLeft(SET1, 560), [1, 2, 1, 1, 2], 0)
  {
    FitsAll(SET1, 560, [1, 2, 1, 1, 2], 0);
  }

  /** SCT schedules set 1 forever. */
  lemma SctPassesSet1()
    ensures PassesForever(SCT, SET1)
  {
    hide Follows, PassesForever, TaskSet, CommonMultiple, Load, Picks, Fits;
    Load1();
    FitsAtEnd1();
    FollowStarts(SET1, [1, 2, 1, 1, 2]);
    var n := Set1From0(0);
    FollowedToHyperperiod(SET1, n, 560, [1, 2, 1, 1, 2], 0);
  }

  // ---------- set 2 ----------

  predicate Leads2(t: nat, a: nat, b: nat, c: nat, u: nat, a': nat, b': nat, c': nat)
    decreases u - t
  {
    if t >= u then t == u && a == a' && b == b' && c == c'
    else
      && Fit(t, 3, a, Choice(a, b, c, 0, 0), 0) && Fit(t, 5, b, Choice(a, b, c, 0, 0), 1)
      && Fit(t, 10, c, Choice(a, b, c, 0, 0), 2)
      && Leads2(t + 1, Then(t, 1, 3, a, Choice(a, b, c, 0, 0), 0), Then(t, 2, 5, b, Choice(a, b, c, 0, 0), 1),
                Then(t, 1, 10, c, Choice(a, b, c, 0, 0), 2), u, a', b', c')
  }

  ghost predicate Follows2(n: nat, t: nat, a: nat, b: nat, c: nat) {
    Follows(SET2, n, t, [a, b, c])
  }

  lemma Tick2(n: nat, t: nat, a: nat, b: nat, c: nat, h: nat) returns (n': nat)
    requires Follows2(n, t, a, b, c) && h == Choice(a, b, c, 0, 0)
    requires Fit(t, 3, a, h, 0) && Fit(t, 5, b, h, 1) && Fit(t, 10, c, h, 2)
    ensures Follows2(n', t + 1, Then(t, 1, 3, a, h, 0), Then(t, 2, 5, b, h, 1), Then(t, 1, 10, c, h, 2))
  {
    hide Follows, Choice, Fit, Then, Load, CommonMultiple;
    Load2();
    n' := TickOf(SET2, n, t, [a, b, c], h, [Then(t, 1, 3, a, h, 0), Then(t, 2, 5, b, h, 1), Then(t, 1, 10, c, h, 2)]);
  }

  lemma {:induction false} Run2(n: nat, t: nat, a: nat, b: nat, c: nat, u: nat, a': nat, b': nat, c': nat) returns (n': nat)
    requires Follows2(n, t, a, b, c) && Leads2(t, a, b, c, u, a', b', c')
    ensures Follows2(n', u, a', b', c')
    decreases u - t
  {
    hide Follows2, Choice, Fit, Then;
    n' := n;
    if t < u {
      var h := Choice(a, b, c, 0, 0);
      n' := Tick2(n', t, a, b, c, h);
      n' := Run2(n', t + 1, Then(t, 1, 3, a, h, 0), Then(t, 2, 5, b, h, 1), Then(t, 1, 10, c, h, 2), u, a', b', c');
    }
  }

  lemma Set2From0(n: nat) returns (n': nat)
    requires Follows2(n, 0, 1, 2, 1)
    ensures Follows2(n', 30, 1, 2, 1)
  {
    hide Follows2;
    n' := Run2(n, 0, 1, 2, 1, 10, 0, 2, 1);
    n' := Set2From10(n');
  }

  lemma Set2From10(n: nat) returns (n': nat)
    requires Follows2(n, 10, 0, 2, 1)
    ensures Follows2(n', 30, 1, 2, 1)
  {
    hide Follows2;
    n' := Run2(n, 10, 0, 2, 1, 20, 0, 2, 1);
    n' := Set2From20(n');
  }

  lemma Set2From20(n: nat) returns (n': nat)
    requires Follows2(n, 20, 0, 2, 1)
    ensures Follows2(n', 30, 1, 2, 1)
  {
    hide Follows2;
    n' := Run2(n, 20, 0, 2, 1, 30, 1, 2, 1);
  }

  lemma FitsAtEnd2()
    ensures |SET2| == 3 && (forall i :: 0 <= i < |SET2| ==> SET2[i].p > 0)
    ensures Picks([1, 2, 1], 0) && Fits(TimesLeft(SET2, 30), [1, 2, 1], 0)
  {
    FitsAll(SET2, 30, [1, 2, 1], 0);
  }

  /** SCT schedules set 2 forever. */
  lemma SctPassesSet2()
    ensures PassesForever(SCT, SET2)
  {
    hide PassesForever, TaskSet, CommonMultiple, Load, Picks, Fits, Follows;
    Load2();
    FitsAtEnd2();
    FollowStarts(SET2, [1, 2, 1]);
    var n := Set2From0(0);
    FollowedToHyperperiod(SET2, n, 30, [1, 2, 1], 0);
  }

  // ---------- the table ----------

  /** The nine verdicts of the fixture: every registered set passes under every algorithm, but for the third under SCT. */
  lemma NineVerdicts(alg: Alg)
    ensures PassesForever(alg, SET1) && PassesForever(alg, SET2)
    ensures PassesForever(alg, SET3) <==> alg != SCT
  {
    hide PassesForever, At, Check;
    EdfPassesRegisteredSets();
    RmaPassesRegisteredSets();
    SctPassesSet1();
    SctPassesSet2();
    SctIsNotOptimal();
    FailsForever(SCT, SET3, 4);
  }

  lemma FailsForever(alg: Alg, ts: seq<Task>, n: nat)
    ensures !Check(alg, At(alg, ts, n).tasks) ==> !PassesForever(alg, ts)
  {
  }
}
