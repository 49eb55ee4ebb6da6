/** What a nice value is worth: weights form a geometric scale, and running time follows it. */
module CfsWeights {
  import opened Wrappers
  import opened TaskTypes
  import opened CfsModel
  import opened CfsFairness
  import opened CfsArrivals
  import opened CfsShares

  /** ONE NICE STEP: weights fall by a factor between 6/5 and 32/25, from 1024 at nice 0. */
  lemma StepRatio(nice: Nice)
    requires nice < 19
    ensures 6 * Weight(nice + 1) <= 5 * Weight(nice) && 25 * Weight(nice) <= 32 * Weight(nice + 1)
    ensures Weight(0) == 1024
  {
  }

  function Pow(b: nat, n: nat): (p: nat)
    requires 0 < b
    ensures 0 < p
  {
    if n == 0 then 1 else b * Pow(b, n - 1)
  }

  /** Weight `w` is within 3 per cent of `a` over `b`. */
  predicate Near(w: int, a: int, b: int) { 97 * a <= 100 * w * b <= 103 * a }

  /** The weights from `nice` on are near a scale that starts at `a` over `b` and falls by a
      factor 5/4 at every step. */
  predicate Scaled(nice: int, a: nat, b: nat)
    requires -20 <= nice <= 20
    decreases 20 - nice
  {
    nice == 20 || (Near(Weight(nice), a, b) && Scaled(nice + 1, 4 * a, 5 * b))
  }

  lemma ScaledFrom8()
    ensures Scaled(8, 6871947673600000000000000000000, 40000000000000000000000000000)
  {
    assert Scaled(16, 450359962737049600000000000000000000, 15625000000000000000000000000000000);
    assert Scaled(12, 1759218604441600000000000000000000, 25000000000000000000000000000000);
  }

  lemma ScaledFrom0()
    ensures Scaled(0, 104857600000000000000000000, 102400000000000000000000)
  {
    ScaledFrom8();
    assert Scaled(4, 26843545600000000000000000000, 64000000000000000000000000);
  }

  lemma ScaledFromMinus8()
    ensures Scaled(-8, 1600000000000000000000, 262144000000000000)
  {
    ScaledFrom0();
    assert Scaled(-4, 409600000000000000000000, 163840000000000000000);
    assert Scaled(-6, 25600000000000000000000, 6553600000000000000);
  }

  lemma ScaledFromMinus16()
    ensures Scaled(-16, 24414062500000000, 671088640000)
  {
    ScaledFromMinus8();
    assert Scaled(-12, 6250000000000000000, 419430400000000);
  }

  /** From 5 to the 20th over 4 to the 15th on. */
  lemma AllScaled()
    ensures Scaled(-20, 95367431640625, 1073741824)
  {
    ScaledFromMinus16();
  }

  lemma Times(p: int, b: int, x: int)
    ensures (b * p) * x == p * (b * x)
  {
  }

  /** One step further along the scale. */
  lemma NearStep(w: int, d: nat, a: nat, b: nat)
    requires 0 < d && Near(w, Pow(4, d - 1) * (4 * a), Pow(5, d - 1) * (5 * b))
    ensures Near(w, Pow(4, d) * a, Pow(5, d) * b)
  {
    Times(Pow(4, d - 1), 4, a);
    Times(Pow(5, d - 1), 5, b);
  }

  lemma {:induction false} ScaledAt(from: int, a: nat, b: nat, nice: Nice)
    requires -20 <= from <= nice && Scaled(from, a, b)
    ensures Near(Weight(nice), Pow(4, nice - from) * a, Pow(5, nice - from) * b)
    decreases nice - from
  {
    if from == nice {
      assert Pow(4, 0) * a == a && Pow(5, 0) * b == b;
    } else {
      ScaledAt(from + 1, 4 * a, 5 * b, nice);
      NearStep(Weight(nice), nice - from, a, b);
    }
  }

  lemma {:induction false} ScaledFrom(from: int, a: nat, b: nat, nice: Nice) returns (c: nat, d: nat)
    requires -20 <= from <= nice && Scaled(from, a, b) && 0 < a && 0 < b
    ensures Scaled(nice, c, d) && 0 < c && 0 < d
    decreases nice - from
  {
    if from == nice {
      c, d := a, b;
    } else {
      c, d := ScaledFrom(from + 1, 4 * a, 5 * b, nice);
    }
  }

  lemma Reorder(p: int, x: int, y: int)
    ensures p * y * x == p * (x * y)
  {
  }

  lemma NearTimes(v: int, a: nat, b: nat, x: nat)
    requires Near(v, a, b)
    ensures 97 * (x * a) <= 100 * b * (x * v) <= 103 * (x * a)
  {
    Monotone(97 * a, 100 * v * b, x);
    Monotone(100 * v * b, 103 * a, x);
    Reorder(97, x, a);
    Reorder(103, x, a);
    Reorder(100 * b, x, v);
    Reorder(100, b, v);
  }

  /** Two weights near `a` over `b` and near `x * a` over `y * b`. */
  lemma NearRatio(v: int, w: int, a: nat, b: nat, x: nat, y: nat)
    requires 0 < b && Near(v, a, b) && Near(w, x * a, y * b)
    ensures 97 * (y * w) <= 103 * (x * v) && 97 * (x * v) <= 103 * (y * w)
  {
    NearTimes(v, a, b, x);
    var far, near := 100 * b * (x * v), 100 * b * (y * w);
    assert 100 * w * (y * b) == near by {
      Reorder(100, y * b, w);
      assert y * b * w == b * (y * w);
      assert 100 * (b * (y * w)) == 100 * b * (y * w);
    }
    Hundred(b, y * w, x * v);
    Hundred(b, x * v, y * w);
    Divide(97 * (y * w), 103 * (x * v), 100 * b);
    Divide(97 * (x * v), 103 * (y * w), 100 * b);
  }

  lemma Hundred(b: nat, z: int, z': int)
    requires 97 * (100 * b * z) <= 103 * (100 * b * z')
    ensures 100 * b * (97 * z) <= 100 * b * (103 * z')
  {
  }

  lemma Divide(x: int, y: int, w: int)
    requires 0 < w && w * x <= w * y
    ensures x <= y
  {
  }

  /** THE SCALE: a task `d` nice steps above another has the heavier weight of the two by the
      d-th power of 5/4, up to a factor of 103/97. */
  lemma WeightRatio(nice: Nice, d: nat)
    requires nice + d <= 19
    ensures var v, w := Weight(nice), Weight(nice + d);
            97 * (Pow(5, d) * w) <= 103 * (Pow(4, d) * v) && 97 * (Pow(4, d) * v) <= 103 * (Pow(5, d) * w)
  {
    AllScaled();
    var a, b := ScaledFrom(-20, 95367431640625, 1073741824, nice);
    ScaledAt(nice, a, b, nice + d);
    NearRatio(Weight(nice), Weight(nice + d), a, b, Pow(4, d), Pow(5, d));
  }

  /** `k` is at least `p` over `q` times `l`, less `slack` over 1024. */
  predicate AtLeastTimes(k: nat, l: nat, p: int, q: int, slack: int) {
    1024 * (p * l) < q * (1024 * k + slack)
  }

  predicate AtMostTimes(k: nat, l: nat, p: int, q: int, slack: int) {
    q * (1024 * k - slack) < 1024 * (p * l)
  }

  lemma Swap(p: int, x: int, y: int)
    ensures p * x * y == p * y * x && p * (x * y) == p * x * y
  {
  }

  /** Dividing two bounds by the weights. */
  lemma CoreLess(x: int, y: int, v: int, w: int, p: int, q: int)
    requires x * v < y * w && p * w <= q * v && 0 < q && 0 < w && 0 <= x
    ensures p * x < q * y
  {
    Scale(x * v, y * w, q);
    Monotone(p * w, q * v, x);
    Swap(p, w, x);
    Swap(q, v, x);
    Swap(q, x, v);
    Swap(q, y, w);
    Cancel(p * x, q * y, w);
  }

  lemma CoreMore(x: int, y: int, v: int, w: int, p: int, q: int)
    requires y * w < x * v && q * v <= p * w && 0 < q && 0 < w && 0 <= x
    ensures q * y < p * x
  {
    Scale(y * w, x * v, q);
    Monotone(q * v, p * w, x);
    Swap(p, w, x);
    Swap(q, v, x);
    Swap(q, x, v);
    Swap(q, y, w);
    Cancel(q * y, p * x, w);
  }

  lemma SharesAtLeast(k: nat, v: int, l: nat, w: int, p: int, q: int, bound: int)
    requires 0 < v && 0 < w && 0 < q && p * w <= q * v && SharesClose(l, w, k, v, bound)
    ensures AtLeastTimes(k, l, p, q, (bound + 2) * v)
  {
    var slack := (bound + 2) * v;
    Distribute(k * 1024, slack, w);
    Swap(bound + 2, v, w);
    Swap(bound + 2, w, v);
    CoreLess(l * 1024, k * 1024 + slack, v, w, p, q);
    Swap(p, l, 1024);
  }

  lemma SharesAtMost(k: nat, v: int, l: nat, w: int, p: int, q: int, bound: int)
    requires 0 < v && 0 < w && 0 < q && q * v <= p * w && SharesClose(k, v, l, w, bound)
    ensures AtMostTimes(k, l, p, q, (bound + 2) * v)
  {
    var slack := (bound + 2) * v;
    Distribute(k * 1024, -slack, w);
    Swap(bound + 2, v, w);
    assert (-slack) * w == -(slack * w);
    CoreMore(l * 1024, k * 1024 - slack, v, w, p, q);
    Swap(p, l, 1024);
  }

  /** WHAT A NICE STEP IS WORTH: under the conditions of `WeightedShares`, a task one nice step
      above another gets between 6/5 and 32/25 of its ticks, up to the slack; one `d` steps
      above, the d-th power of 5/4, within a factor of 103/97. */
  lemma NiceShares(cpus: seq<Cpu>, hs: seq<Happening>, n: nat, total: nat, cap: nat, top: Nice, bound: int,
                   i: nat, j: nat, t: TaskId, u: TaskId, nice: Nice, d: nat)
    requires 0 <= top && MaxStep(top) <= bound && OpenRun(cpus, hs, n, total, cap, top, bound)
    requires UndisturbedFrom(cpus, hs, i, j, t) && UndisturbedFrom(cpus, hs, i, j, u)
    requires Live(cpus[i], t) && Live(cpus[i], u) && Live(cpus[j], t) && Live(cpus[j], u)
    requires t < |cpus[i].sched.tasks| && u < |cpus[i].sched.tasks| && nice + d <= 19
    requires cpus[i].sched.tasks[t].nice == nice && cpus[i].sched.tasks[u].nice == nice + d
    ensures var k, l := Ticks(cpus, hs, i, j, t), Ticks(cpus, hs, i, j, u);
            var slack := (2 * bound + 2) * Weight(nice);
            && (d == 1 ==> AtLeastTimes(k, l, 6, 5, slack) && AtMostTimes(k, l, 32, 25, slack))
            && AtLeastTimes(k, l, 97 * Pow(5, d), 103 * Pow(4, d), slack)
            && AtMostTimes(k, l, 103 * Pow(5, d), 97 * Pow(4, d), slack)
  {
    WeightedShares(cpus, hs, n, total, cap, top, bound, i, j, t, u);
    WeightedShares(cpus, hs, n, total, cap, top, bound, i, j, u, t);
    SharesByNice(Ticks(cpus, hs, i, j, t), Ticks(cpus, hs, i, j, u), nice, d, 2 * bound);
  }

  lemma SharesByNice(k: nat, l: nat, nice: Nice, d: nat, bound: int)
    requires nice + d <= 19
    requires SharesClose(k, Weight(nice), l, Weight(nice + d), bound)
    requires SharesClose(l, Weight(nice + d), k, Weight(nice), bound)
    ensures var slack := (bound + 2) * Weight(nice);
            && (d == 1 ==> AtLeastTimes(k, l, 6, 5, slack) && AtMostTimes(k, l, 32, 25, slack))
            && AtLeastTimes(k, l, 97 * Pow(5, d), 103 * Pow(4, d), slack)
            && AtMostTimes(k, l, 103 * Pow(5, d), 97 * Pow(4, d), slack)
  {
    var v, w := Weight(nice), Weight(nice + d);
    WeightRatio(nice, d);
    if d == 1 {
      StepRatio(nice);
      SharesAtLeast(k, v, l, w, 6, 5, bound);
      SharesAtMost(k, v, l, w, 32, 25, bound);
    }
    SharesByScale(k, v, l, w, Pow(4, d), Pow(5, d), bound);
  }

  lemma SharesByScale(k: nat, v: int, l: nat, w: int, x: nat, y: nat, bound: int)
    requires 0 < v && 0 < w && 0 < x && 0 < y && SharesClose(k, v, l, w, bound) && SharesClose(l, w, k, v, bound)
    requires 97 * (y * w) <= 103 * (x * v) && 97 * (x * v) <= 103 * (y * w)
    ensures AtLeastTimes(k, l, 97 * y, 103 * x, (bound + 2) * v)
    ensures AtMostTimes(k, l, 103 * y, 97 * x, (bound + 2) * v)
  {
    Group(97, y, w);
    Group(103, x, v);
    Group(97, x, v);
    Group(103, y, w);
    SharesAtLeast(k, v, l, w, 97 * y, 103 * x, bound);
    SharesAtMost(k, v, l, w, 103 * y, 97 * x, bound);
  }

  lemma Group(p: int, x: int, y: int)
    ensures p * x * y == p * (x * y)
  {
  }
}
