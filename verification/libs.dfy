/** The numeric helpers of the library module: the Vargha–Delaney A effect
    size used to compare search strategies, and the speed between two timed
    positions.  Samples are exact reals. */
module Libs {
  import opened Common

  function Abs(x: real): real
  {
    if x < 0.0 then -x else x
  }

  // ---------------------------------------------------------------------
  // Ranks
  // ---------------------------------------------------------------------

  function CountLess(s: seq<real>, x: real): nat
  {
    if |s| == 0 then 0 else CountLess(s[..|s| - 1], x) + (if s[|s| - 1] < x then 1 else 0)
  }

  function CountEqual(s: seq<real>, x: real): nat
  {
    if |s| == 0 then 0 else CountEqual(s[..|s| - 1], x) + (if s[|s| - 1] == x then 1 else 0)
  }

  /** `scipy.stats.rankdata` with ties averaged: the tie group of `all[k]`
      occupies the 1-based sorted positions CountLess+1 .. CountLess+CountEqual,
      and every member gets the mean of those positions. */
  function AverageRank(all: seq<real>, k: nat): real
    requires k < |all|
  {
    (CountLess(all, all[k]) as real) + ((CountEqual(all, all[k]) as real) + 1.0) / 2.0
  }

  /** `sum(r[0:m])`: the sum of the ranks of the first `m` values. */
  function RankSum(all: seq<real>, m: nat): real
    requires m <= |all|
  {
    if m == 0 then 0.0 else RankSum(all, m - 1) + AverageRank(all, m - 1)
  }

  // ---------------------------------------------------------------------
  // Pairwise comparison: the common-language reading of A
  // ---------------------------------------------------------------------

  /** One comparison: a win counts 1, a tie one half. */
  function Win(a: real, b: real): real
  {
    if a > b then 1.0 else if a == b then 0.5 else 0.0
  }

  /** How much `x` beats the elements of `s`. */
  function Beats(x: real, s: seq<real>): real
  {
    if |s| == 0 then 0.0 else Beats(x, s[..|s| - 1]) + Win(x, s[|s| - 1])
  }

  /** How much the elements of `s` beat `x`. */
  function BeatenBy(s: seq<real>, x: real): real
  {
    if |s| == 0 then 0.0 else BeatenBy(s[..|s| - 1], x) + Win(s[|s| - 1], x)
  }

  /** #{(i, j) : t[i] > c[j]} + 1/2 #{(i, j) : t[i] == c[j]}. */
  function PairScore(t: seq<real>, c: seq<real>): real
  {
    if |t| == 0 then 0.0 else PairScore(t[..|t| - 1], c) + Beats(t[|t| - 1], c)
  }

  lemma {:induction false} BeatsCounts(x: real, s: seq<real>)
    ensures Beats(x, s) == (CountLess(s, x) as real) + (CountEqual(s, x) as real) / 2.0
  {
    if |s| > 0 {
      BeatsCounts(x, s[..|s| - 1]);
    }
  }

  lemma {:induction false} BeatsConcat(x: real, a: seq<real>, b: seq<real>)
    ensures Beats(x, a + b) == Beats(x, a) + Beats(x, b)
  {
    if |b| == 0 {
      assert a + b == a;
    } else {
      assert (a + b)[..|a + b| - 1] == a + b[..|b| - 1];
      BeatsConcat(x, a, b[..|b| - 1]);
    }
  }

  lemma {:induction false} BeatsBounds(x: real, s: seq<real>)
    ensures 0.0 <= Beats(x, s) <= |s| as real
  {
    if |s| > 0 {
      BeatsBounds(x, s[..|s| - 1]);
    }
  }

  /** Each comparison is won by one side, or shared. */
  lemma {:induction false} BeatsComplement(x: real, s: seq<real>)
    ensures Beats(x, s) + BeatenBy(s, x) == |s| as real
  {
    if |s| > 0 {
      BeatsComplement(x, s[..|s| - 1]);
    }
  }

  lemma {:induction false} PairScoreAppendRight(b: seq<real>, a: seq<real>, x: real)
    ensures PairScore(b, a + [x]) == PairScore(b, a) + BeatenBy(b, x)
  {
    if |b| > 0 {
      var n := |b| - 1;
      PairScoreAppendRight(b[..n], a, x);
      assert (a + [x])[..|a|] == a;
      assert Beats(b[n], a + [x]) == Beats(b[n], a) + Win(b[n], x);
    }
  }

  /** Comparing a with b and b with a accounts for every pair exactly once. */
  lemma {:induction false} PairScoreAntisymmetric(a: seq<real>, b: seq<real>)
    ensures PairScore(a, b) + PairScore(b, a) == (|a| as real) * (|b| as real)
  {
    if |a| > 0 {
      var n := |a| - 1;
      PairScoreAntisymmetric(a[..n], b);
      assert PairScore(b, a) == PairScore(b, a[..n]) + BeatenBy(b, a[n]) by {
        assert a == a[..n] + [a[n]];
        PairScoreAppendRight(b, a[..n], a[n]);
      }
      BeatsComplement(a[n], b);
      assert (n as real) * (|b| as real) + |b| as real == (|a| as real) * (|b| as real);
    } else {
      PairScoreEmptyRight(b);
    }
  }

  lemma {:induction false} PairScoreEmptyRight(b: seq<real>)
    ensures PairScore(b, []) == 0.0
  {
    if |b| > 0 {
      PairScoreEmptyRight(b[..|b| - 1]);
    }
  }

  lemma {:induction false} PairScoreBounds(t: seq<real>, c: seq<real>)
    ensures 0.0 <= PairScore(t, c) <= (|t| as real) * (|c| as real)
  {
    if |t| > 0 {
      PairScoreBounds(t[..|t| - 1], c);
      BeatsBounds(t[|t| - 1], c);
    }
  }

  lemma {:induction false} RankSumPrefix(t: seq<real>, c: seq<real>, m: nat)
    requires m <= |t|
    ensures RankSum(t + c, m) == PairScore(t[..m], t) + PairScore(t[..m], c) + (m as real) / 2.0
  {
    if m > 0 {
      RankSumPrefix(t, c, m - 1);
      var all := t + c;
      var x := t[m - 1];
      assert all[m - 1] == x;
      BeatsCounts(x, all);
      BeatsConcat(x, t, c);
      assert t[..m][..m - 1] == t[..m - 1];
    }
  }

  /** The rank-sum identity behind formula (14) of Vargha and Delaney (2000):
      with ties given their average rank, the treatment rank sum exceeds its
      minimum m(m+1)/2 by exactly the pairwise win count. */
  lemma {:induction false} RankSumIdentity(t: seq<real>, c: seq<real>)
    ensures RankSum(t + c, |t|) == (|t| as real) * (|t| as real + 1.0) / 2.0 + PairScore(t, c)
  {
    RankSumPrefix(t, c, |t|);
    assert t[..|t|] == t;
    PairScoreAntisymmetric(t, t);
  }

  // ---------------------------------------------------------------------
  // Magnitude thresholds
  // ---------------------------------------------------------------------

  datatype Magnitude = Negligible | Small | Medium | Large

  /** Effect-size thresholds of Hess and Kromrey (2004). */
  const Levels: seq<real> := [0.147, 0.33, 0.474]
  const Labels: seq<Magnitude> := [Negligible, Small, Medium, Large]

  predicate Sorted(a: seq<real>)
  {
    forall i, j :: 0 <= i < j < |a| ==> a[i] <= a[j]
  }

  /** Python's `bisect.bisect_left` binary search over `a[lo..hi]`: the
      leftmost position at which `x` could be inserted keeping `a` sorted. */
  function BisectLeft(a: seq<real>, x: real, lo: nat, hi: nat): (i: nat)
    requires Sorted(a) && lo <= hi <= |a|
    requires forall k :: 0 <= k < lo ==> a[k] < x
    requires forall k :: hi <= k < |a| ==> a[k] >= x
    ensures i <= |a|
    ensures forall k :: 0 <= k < i ==> a[k] < x
    ensures forall k :: i <= k < |a| ==> a[k] >= x
    decreases hi - lo
  {
    if lo < hi then
      var mid := (lo + hi) / 2;
      if a[mid] < x then BisectLeft(a, x, mid + 1, hi) else BisectLeft(a, x, lo, mid)
    else lo
  }

  /** The label of a scaled effect: a value on a threshold takes the lower label. */
  function Classify(x: real): (m: Magnitude)
    ensures m == Negligible <==> x <= 0.147
    ensures m == Small <==> 0.147 < x <= 0.33
    ensures m == Medium <==> 0.33 < x <= 0.474
    ensures m == Large <==> 0.474 < x
  {
    var i := BisectLeft(Levels, x, 0, |Levels|);
    assert Levels[0] == 0.147 && Levels[1] == 0.33 && Levels[2] == 0.474;
    Labels[i]
  }

  // ---------------------------------------------------------------------
  // VD_A
  // ---------------------------------------------------------------------

  datatype Effect = Effect(estimate: real, magnitude: Magnitude)

  /** `VD_A(treatment, control)`.  Samples of different length raise
      ValueError; empty samples divide by zero. */
  function VargheDelaneyA(treatment: seq<real>, control: seq<real>): (r: Result<Effect>)
    ensures r.Err? <==> |treatment| != |control| || |treatment| == 0
    ensures r.Ok? ==> 0.0 <= r.value.estimate <= 1.0
    ensures r.Ok? ==>
      r.value.estimate == PairScore(treatment, control) / ((|treatment| as real) * (|control| as real))
    ensures r.Ok? ==> r.value.magnitude == Classify(Abs((r.value.estimate - 0.5) * 2.0))
  {
    if |treatment| != |control| then Err("ValueError: Data d and f must have the same length")
    else if |treatment| == 0 then Err("ZeroDivisionError")
    else
      var a := Estimate(treatment, control);
      Ok(Effect(a, Classify(Abs((a - 0.5) * 2.0))))
  }

  /** The estimate from the rank sum of the treatment in the pooled sample:
      the share of pairs the treatment wins, a tie counting half. */
  function Estimate(treatment: seq<real>, control: seq<real>): (a: real)
    requires |treatment| > 0 && |control| > 0
    ensures 0.0 <= a <= 1.0
    ensures a == PairScore(treatment, control) / ((|treatment| as real) * (|control| as real))
  {
    var m := |treatment| as real;
    var n := |control| as real;
    var r1 := RankSum(treatment + control, |treatment|);
    RankSumIdentity(treatment, control);
    PairScoreBounds(treatment, control);
    EstimateAlgebra(r1, m, n, PairScore(treatment, control));
    (2.0 * r1 - m * (m + 1.0)) / (2.0 * n * m)
  }

  /** The algebra of the estimate: once the rank sum exceeds its minimum by
      the pair score p, the code's quotient is p / (m n), a value in [0, 1]. */
  lemma EstimateAlgebra(r1: real, m: real, n: real, p: real)
    requires m > 0.0 && n > 0.0 && 0.0 <= p <= m * n
    requires r1 == m * (m + 1.0) / 2.0 + p
    ensures (2.0 * r1 - m * (m + 1.0)) / (2.0 * n * m) == p / (m * n)
    ensures 0.0 <= p / (m * n) <= 1.0
  {
    var d := m * n;
    assert 2.0 * n * m == 2.0 * d;
    assert 2.0 * r1 - m * (m + 1.0) == 2.0 * p;
    CancelFactor(p, d, 2.0);
  }

  /** Cancelling a common non-zero factor in a quotient. */
  lemma CancelFactor(p: real, d: real, k: real)
    requires d != 0.0 && k != 0.0
    ensures (k * p) / (k * d) == p / d
  {
    var q := p / d;
    assert p == q * d;
    assert k * p == q * (k * d);
  }

  /** The code's formula agrees with formula (14) of Vargha and Delaney,
      A = (r1/m - (m+1)/2)/n. */
  lemma {:induction false} Formula14(t: seq<real>, c: seq<real>)
    requires |t| == |c| && |t| > 0
    ensures var m := |t| as real;
      var n := |c| as real;
      var r1 := RankSum(t + c, |t|);
      VargheDelaneyA(t, c).value.estimate == (r1 / m - (m + 1.0) / 2.0) / n
  {
    var m := |t| as real;
    var n := |c| as real;
    var r1 := RankSum(t + c, |t|);
    var p := PairScore(t, c);
    var e := VargheDelaneyA(t, c).value.estimate;
    assert e == p / (m * n);
    RankSumIdentity(t, c);
    Formula14Algebra(r1, m, n, p);
  }

  lemma Formula14Algebra(r1: real, m: real, n: real, p: real)
    requires m > 0.0 && n > 0.0
    requires r1 == m * (m + 1.0) / 2.0 + p
    ensures (r1 / m - (m + 1.0) / 2.0) / n == p / (m * n)
  {
    var q := p / m;
    DivUnique(r1, m, (m + 1.0) / 2.0 + q);
    DivUnique(p, m * n, q / n);
  }

  /** Exchanging treatment and control turns A into 1 - A and keeps the label. */
  lemma {:induction false} SwapComplements(t: seq<real>, c: seq<real>)
    requires |t| == |c| && |t| > 0
    ensures VargheDelaneyA(c, t).value.estimate == 1.0 - VargheDelaneyA(t, c).value.estimate
    ensures VargheDelaneyA(c, t).value.magnitude == VargheDelaneyA(t, c).value.magnitude
  {
    PairScoreAntisymmetric(t, c);
    var mn := (|t| as real) * (|c| as real);
    var p := PairScore(t, c);
    var q := PairScore(c, t);
    assert q == mn - p;
    ComplementQuotient(p, mn);
    assert (|c| as real) * (|t| as real) == mn;
    var a := VargheDelaneyA(t, c).value.estimate;
    assert Abs(((1.0 - a) - 0.5) * 2.0) == Abs((a - 0.5) * 2.0);
  }

  lemma ComplementQuotient(p: real, d: real)
    requires d > 0.0
    ensures (d - p) / d == 1.0 - p / d
  {
    var q := (d - p) / d;
    var r := 1.0 - p / d;
    assert q * d == d - p;
    assert r * d == d - p;
    assert (q - r) * d == 0.0;
    assert q - r == ((q - r) * d) / d;
  }

  /** A sample compared with itself: A = 0.5, negligible. */
  lemma {:induction false} IdenticalSamplesNegligible(t: seq<real>)
    requires |t| > 0
    ensures VargheDelaneyA(t, t) == Ok(Effect(0.5, Negligible))
  {
    PairScoreAntisymmetric(t, t);
    var d := (|t| as real) * (|t| as real);
    assert PairScore(t, t) == d / 2.0;
    assert (d / 2.0) / d == 0.5;
  }

  lemma {:induction false} BeatsAllBelow(x: real, s: seq<real>)
    requires forall j :: 0 <= j < |s| ==> s[j] < x
    ensures Beats(x, s) == |s| as real
  {
    if |s| > 0 {
      BeatsAllBelow(x, s[..|s| - 1]);
    }
  }

  lemma {:induction false} PairScoreDominant(t: seq<real>, c: seq<real>)
    requires forall i, j :: 0 <= i < |t| && 0 <= j < |c| ==> t[i] > c[j]
    ensures PairScore(t, c) == (|t| as real) * (|c| as real)
  {
    if |t| > 0 {
      var n := |t| - 1;
      PairScoreDominant(t[..n], c);
      BeatsAllBelow(t[n], c);
    }
  }

  /** Every treatment value above every control value: A = 1, large. */
  lemma {:induction false} DominantTreatmentLarge(t: seq<real>, c: seq<real>)
    requires |t| == |c| && |t| > 0
    requires forall i, j :: 0 <= i < |t| && 0 <= j < |c| ==> t[i] > c[j]
    ensures VargheDelaneyA(t, c) == Ok(Effect(1.0, Large))
  {
    PairScoreDominant(t, c);
    var d := (|t| as real) * (|c| as real);
    assert d / d == 1.0;
  }

  // ---------------------------------------------------------------------
  // cal_speed
  // ---------------------------------------------------------------------

  /** A timed position (x, y, timestamp). */
  datatype Stamp = Stamp(x: real, y: real, time: real)

  /** `cal_speed(p1, p2)`: the planar distance (computed outside this model and
      passed in as `dist`) over the elapsed time, with speeds under 0.5 and
      simultaneous stamps read as standing still. */
  function CalSpeed(p1: Stamp, p2: Stamp, dist: real): (r: real)
    ensures p1.time == p2.time ==> r == 0.0
    ensures r == 0.0 || (r >= 0.5 && r * Abs(p2.time - p1.time) == dist)
    ensures p1.time != p2.time && dist / Abs(p2.time - p1.time) >= 0.5 ==>
      r == dist / Abs(p2.time - p1.time)
  {
    var time := Abs(p2.time - p1.time);
    if time == 0.0 then 0.0
    else if dist / time < 0.5 then 0.0
    else dist / time
  }

  /** The order of the two stamps does not matter. */
  lemma CalSpeedSymmetric(p1: Stamp, p2: Stamp, dist: real)
    ensures CalSpeed(p1, p2, dist) == CalSpeed(p2, p1, dist)
  {
    assert Abs(p2.time - p1.time) == Abs(p1.time - p2.time);
  }
}
