/** Per-job running statistics and their summaries (`RdcCacheManagerImpl`). */
module JobStats {
  import opened Common

  /** `FieldSummaryStats`; doubles are modelled by reals. */
  datatype FieldStats = FieldStats(count: nat, max: int, min: int, total: int,
                                   oldM: real, oldS: real, newM: real, newS: real, lastTime: nat)

  /** A record before its first sample (the source leaves the doubles unset). */
  const EMPTY_STATS := FieldStats(0, 0, 0, 0, 0.0, 0.0, 0.0, 0.0, 0)

  /** `rdc_update_job_stats` on one record. */
  function Observe(f: FieldStats, r: Reading): FieldStats {
    var x := r.value as real;
    if f.count == 0 then
      f.(count := 1, max := r.value, min := r.value, total := r.value, lastTime := r.ts,
         oldS := 0.0, oldM := x, newM := x)
    else
      var n := f.count + 1;
      var m := f.oldM + (x - f.oldM) / (n as real);
      var s := f.oldS + (x - f.oldM) * (x - m);
      FieldStats(n, Max(f.max, r.value), Min(f.min, r.value), f.total + r.value, m, s, m, s, r.ts)
  }

  /** The record after a list of samples. */
  function Fold(rs: seq<Reading>): FieldStats {
    if rs == [] then EMPTY_STATS else Observe(Fold(rs[..|rs| - 1]), rs[|rs| - 1])
  }

  // ---------------------------------------------------------------------
  // What the record means

  ghost function Sum(rs: seq<Reading>): int {
    if rs == [] then 0 else Sum(rs[..|rs| - 1]) + rs[|rs| - 1].value
  }

  function Deviation(v: int, m: real): real {
    (v as real - m) * (v as real - m)
  }

  /** The sum of squared deviations from `m`. */
  ghost function SquaredDeviations(rs: seq<Reading>, m: real): real {
    if rs == [] then 0.0 else SquaredDeviations(rs[..|rs| - 1], m) + Deviation(rs[|rs| - 1].value, m)
  }

  ghost predicate IsMax(rs: seq<Reading>, v: int) {
    (exists r :: r in rs && r.value == v) && forall r :: r in rs ==> r.value <= v
  }

  ghost predicate IsMin(rs: seq<Reading>, v: int) {
    (exists r :: r in rs && r.value == v) && forall r :: r in rs ==> v <= r.value
  }

  lemma MaxMinExtend(rs: seq<Reading>, hi: int, lo: int, r: Reading)
    requires IsMax(rs, hi) && IsMin(rs, lo)
    ensures IsMax(rs + [r], Max(hi, r.value)) && IsMin(rs + [r], Min(lo, r.value))
  {
    var a :| a in rs && a.value == hi;
    var b :| b in rs && b.value == lo;
    assert a in rs + [r] && b in rs + [r] && r in rs + [r];
  }

  /** Count, total, extremes and last timestamp are those of the list. */
  lemma {:induction false} FoldCounts(rs: seq<Reading>)
    ensures Fold(rs).count == |rs| && Fold(rs).total == Sum(rs)
    ensures rs != [] ==>
      IsMax(rs, Fold(rs).max) && IsMin(rs, Fold(rs).min) && Fold(rs).lastTime == rs[|rs| - 1].ts
  {
    if rs != [] {
      var init, r := rs[..|rs| - 1], rs[|rs| - 1];
      FoldCounts(init);
      assert rs == init + [r];
      if init == [] {
        assert Fold(rs) == Observe(EMPTY_STATS, r);
        assert r in rs;
      } else {
        MaxMinExtend(init, Fold(init).max, Fold(init).min, r);
      }
    }
  }

  function Square(v: int): real {
    v as real * v as real
  }

  ghost function SumSquares(rs: seq<Reading>): real {
    if rs == [] then 0.0 else SumSquares(rs[..|rs| - 1]) + Square(rs[|rs| - 1].value)
  }

  ghost function Expanded(q: real, t: int, n: nat, m: real): real {
    q - 2.0 * m * (t as real) + (n as real) * (m * m)
  }

  lemma ExpandOne(q: real, t: int, n: nat, m: real, v: int)
    ensures Expanded(q + Square(v), t + v, n + 1, m) == Expanded(q, t, n, m) + Deviation(v, m)
  {
    var x := v as real;
    assert Deviation(v, m) == x * x - 2.0 * m * x + m * m;
    assert 2.0 * m * ((t + v) as real) == 2.0 * m * (t as real) + 2.0 * m * x;
    assert ((n + 1) as real) * (m * m) == (n as real) * (m * m) + m * m;
  }

  lemma {:induction false} DeviationsExpand(rs: seq<Reading>, m: real)
    ensures SquaredDeviations(rs, m) == Expanded(SumSquares(rs), Sum(rs), |rs|, m)
  {
    if rs != [] {
      var init := rs[..|rs| - 1];
      DeviationsExpand(init, m);
      ExpandOne(SumSquares(init), Sum(init), |init|, m, rs[|rs| - 1].value);
    }
  }

  lemma ExpandProduct(n: real, m0: real, m: real)
    ensures (n * m - (n - 1.0) * m0) * (m + m0) == n * (m * m) - (n - 1.0) * (m0 * m0) + m0 * m
  {
    var a, b := n * m, (n - 1.0) * m0;
    assert (a - b) * (m + m0) == a * m + a * m0 - b * m - b * m0;
    assert a * m == n * (m * m);
    assert a * m0 == n * (m0 * m);
    assert b * m == n * (m0 * m) - m0 * m;
    assert b * m0 == (n - 1.0) * (m0 * m0);
  }

  /** One Welford step in algebra: `m0` is the mean of n-1 values, `m` of n. */
  lemma WelfordAlgebra(n: real, m0: real, m: real, x: real)
    requires n * m == (n - 1.0) * m0 + x
    ensures (x - m0) * (x - m) == x * x - n * (m * m) + (n - 1.0) * (m0 * m0)
  {
    assert x == n * m - (n - 1.0) * m0;
    calc {
      (x - m0) * (x - m);
      x * x - x * (m + m0) + m0 * m;
      { assert x * (m + m0) == (n * m - (n - 1.0) * m0) * (m + m0); }
      x * x - (n * m - (n - 1.0) * m0) * (m + m0) + m0 * m;
      { ExpandProduct(n, m0, m); }
      x * x - n * (m * m) + (n - 1.0) * (m0 * m0);
    }
  }

  /** One Welford step: from total `t0`, squares `q0`, mean `m0` and deviations `s0` of `k` values. */
  lemma WelfordStep(k: real, n: real, t0: real, q0: real, m0: real, s0: real, x: real)
    requires k > 0.0 && n == k + 1.0 && k * m0 == t0 && s0 == q0 - k * (m0 * m0)
    ensures
      var m := m0 + (x - m0) / n;
      n * m == t0 + x && s0 + (x - m0) * (x - m) == q0 + x * x - n * (m * m)
  {
    var d := (x - m0) / n;
    var m := m0 + d;
    assert n * d == x - m0;
    assert n * m == n * m0 + n * d;
    assert n * m0 == k * m0 + m0;
    WelfordAlgebra(n, m0, m, x);
  }

  /** `old_m` times the count is the total. */
  ghost predicate MeanExact(f: FieldStats) {
    (f.count as real) * f.oldM == f.total as real
  }

  /** The record's mean and deviations, multiplied out, against a sum of squares. */
  ghost predicate Tracks(f: FieldStats, q: real) {
    && f.count > 0
    && MeanExact(f)
    && f.oldS == q - (f.count as real) * (f.oldM * f.oldM)
    && (f.count > 1 ==> f.newS == f.oldS)
  }

  lemma ObserveFirst(r: Reading)
    ensures Tracks(Observe(EMPTY_STATS, r), 0.0 + Square(r.value))
  {
  }

  /** What a later sample of value `v` does to the record. */
  ghost predicate Later(f: FieldStats, g: FieldStats, v: int) {
    && g.count == f.count + 1 && g.total == f.total + v
    && g.oldM == f.oldM + (v as real - f.oldM) / g.count as real
    && g.oldS == f.oldS + (v as real - f.oldM) * (v as real - g.oldM) && g.newS == g.oldS
  }

  lemma ObserveLater(f: FieldStats, r: Reading)
    requires f.count > 0
    ensures Later(f, Observe(f, r), r.value)
  {
  }

  lemma WelfordNext(k: nat, n: nat, t0: int, t: int, v: int, q0: real, m0: real, s0: real, m: real, s: real)
    requires k > 0 && n == k + 1 && t == t0 + v
    requires (k as real) * m0 == t0 as real && s0 == q0 - (k as real) * (m0 * m0)
    requires m == m0 + (v as real - m0) / n as real && s == s0 + (v as real - m0) * (v as real - m)
    ensures (n as real) * m == t as real && s == q0 + Square(v) - (n as real) * (m * m)
  {
    WelfordStep(k as real, n as real, t0 as real, q0, m0, s0, v as real);
  }

  lemma LaterTracks(f: FieldStats, g: FieldStats, v: int, q: real)
    requires Tracks(f, q) && Later(f, g, v)
    ensures Tracks(g, q + Square(v))
  {
    assert MeanExact(g) && g.oldS == q + Square(v) - (g.count as real) * (g.oldM * g.oldM) by {
      WelfordNext(f.count, g.count, f.total, g.total, v, q, f.oldM, f.oldS, g.oldM, g.oldS);
    }
  }

  lemma ObserveTracks(f: FieldStats, r: Reading, q: real)
    requires Tracks(f, q)
    ensures Tracks(Observe(f, r), q + Square(r.value))
  {
    ObserveLater(f, r);
    LaterTracks(f, Observe(f, r), r.value, q);
  }

  lemma {:induction false} FoldTracks(rs: seq<Reading>)
    requires rs != []
    ensures Tracks(Fold(rs), SumSquares(rs))
  {
    var init, r := rs[..|rs| - 1], rs[|rs| - 1];
    var f, q := Fold(init), SumSquares(init);
    assert Tracks(Observe(f, r), q + Square(r.value)) by {
      if init == [] {
        ObserveFirst(r);
      } else {
        FoldTracks(init);
        ObserveTracks(f, r, q);
      }
    }
  }

  lemma TracksDeviations(f: FieldStats, q: real)
    requires Tracks(f, q)
    ensures f.oldS == Expanded(q, f.total, f.count, f.oldM) && MeanExact(f)
  {
    var n, m, t := f.count as real, f.oldM, f.total as real;
    assert m * t == m * (n * m) == n * (m * m);
    assert 2.0 * m * t == 2.0 * (m * t);
  }

  lemma SquareNonNegative(d: real)
    ensures d * d >= 0.0
  {
  }

  lemma {:induction false} DeviationsNonNegative(rs: seq<Reading>, m: real)
    ensures SquaredDeviations(rs, m) >= 0.0
  {
    if rs != [] {
      DeviationsNonNegative(rs[..|rs| - 1], m);
      SquareNonNegative(rs[|rs| - 1].value as real - m);
    }
  }

  /** Welford exactness: `old_m` is the mean and `old_s` the sum of squared deviations from it,
      so it is never negative; `new_s` agrees as soon as the summary divides it. */
  lemma WelfordExact(rs: seq<Reading>)
    requires rs != []
    ensures
      var f := Fold(rs);
      && MeanExact(f)
      && f.oldS == SquaredDeviations(rs, f.oldM)
      && f.oldS >= 0.0
      && (f.count > 1 ==> f.newS == f.oldS)
  {
    var f, q := Fold(rs), SumSquares(rs);
    FoldCounts(rs);
    assert f.oldS == Expanded(q, f.total, f.count, f.oldM) && MeanExact(f) && (f.count > 1 ==> f.newS == f.oldS) by {
      FoldTracks(rs);
      TracksDeviations(f, q);
    }
    DeviationsExpand(rs, f.oldM);
    DeviationsNonNegative(rs, f.oldM);
  }

  /** What `set_summary` takes the square root of. */
  function Variance(f: FieldStats): real {
    if f.count > 1 then f.newS / (f.count - 1) as real else 0.0
  }

  lemma QuotientNonNegative(a: real, b: real)
    requires a >= 0.0 && b > 0.0
    ensures a / b >= 0.0
  {
  }

  /** That is the sample variance, and never negative, so the root exists. */
  lemma VarianceExact(rs: seq<Reading>)
    requires |rs| > 1
    ensures
      var f := Fold(rs);
      && Variance(f) == SquaredDeviations(rs, f.oldM) / (|rs| - 1) as real
      && Variance(f) >= 0.0
  {
    WelfordExact(rs);
    FoldCounts(rs);
    QuotientNonNegative(Fold(rs).newS, (|rs| - 1) as real);
  }

  // ---------------------------------------------------------------------
  // Summaries

  /** `rdc_stats_summary_t` without the standard deviation. */
  datatype Summary = Summary(max: nat, min: nat, average: nat)

  const NO_SUMMARY := Summary(0, TWO64 - 1, 0)

  function Div(a: nat, d: nat): nat
    requires d > 0
  {
    a / d
  }

  /** C++ division of a signed value by a positive one. */
  function TruncDiv(a: int, d: nat): int
    requires d > 0
  {
    if a >= 0 then Div(a, d) else 0 - Div(-a, d)
  }

  function ToU64(x: int): nat {
    x % TWO64
  }

  /** The per-GPU part of `set_summary`; the total is divided as an unsigned value. */
  function GpuSummary(f: FieldStats, adjuster: nat): Summary
    requires f.count > 0 ==> adjuster > 0
  {
    if f.count == 0 then NO_SUMMARY
    else Summary(ToU64(TruncDiv(f.max, adjuster)), ToU64(TruncDiv(f.min, adjuster)),
                 Div(Div(ToU64(f.total), f.count), adjuster))
  }

  /** The part of `set_summary` that accumulates into the job summary. */
  function Accumulate(acc: Summary, f: FieldStats, adjuster: nat): Summary
    requires f.count > 0 ==> adjuster > 0
  {
    if f.count == 0 then acc
    else
      var g := GpuSummary(f, adjuster);
      Summary(Max(acc.max, g.max), Min(acc.min, g.min), acc.average + g.average)
  }

  ghost predicate NonNegative(rs: seq<Reading>) {
    forall r :: r in rs ==> r.value >= 0
  }

  lemma Distribute(n: int, x: int)
    ensures (n + 1) * x == n * x + x
  {
  }

  lemma {:induction false} SumBetween(rs: seq<Reading>, lo: int, hi: int)
    requires forall r :: r in rs ==> lo <= r.value <= hi
    ensures |rs| * lo <= Sum(rs) <= |rs| * hi
  {
    if rs != [] {
      var init, r := rs[..|rs| - 1], rs[|rs| - 1];
      assert r in rs && forall q :: q in init ==> q in rs;
      SumBetween(init, lo, hi);
      Distribute(|init|, lo);
      Distribute(|init|, hi);
    }
  }

  lemma QuotientBetween(t: nat, n: nat, lo: nat, hi: nat)
    requires n > 0 && n * lo <= t <= n * hi
    ensures lo <= Div(t, n) <= hi
  {
    var q := Div(t, n);
    assert n * q <= t < n * q + n;
    assert n * (q + 1) == n * q + n;
    assert n * (hi + 1) == n * hi + n;
    if q + 1 <= lo {
      MulMono(n, q + 1, lo);
    } else if hi + 1 <= q {
      MulMono(n, hi + 1, q);
    }
  }

  lemma StatsBounds(f: FieldStats, adjuster: nat)
    requires f.count > 0 && adjuster > 0
    requires 0 <= f.min && f.count * f.min <= f.total <= f.count * f.max && f.max <= f.total < TWO64
    ensures
      var g := GpuSummary(f, adjuster);
      g.min <= g.average <= g.max < TWO64
  {
    var average := Div(f.total, f.count);
    assert f.min <= average <= f.max by { QuotientBetween(f.total, f.count, f.min, f.max); }
    DivMono(f.min, average, adjuster);
    DivMono(average, f.max, adjuster);
    SmallU64(f.total);
    SmallU64(Div(f.max, adjuster));
    SmallU64(Div(f.min, adjuster));
  }

  lemma {:induction false} MaxBelowSum(rs: seq<Reading>, hi: int)
    requires NonNegative(rs) && IsMax(rs, hi)
    ensures hi <= Sum(rs)
  {
    var init, r := rs[..|rs| - 1], rs[|rs| - 1];
    assert r in rs && forall q :: q in init ==> q in rs;
    SumBetween(init, 0, hi);
    if r.value != hi {
      var a :| a in rs && a.value == hi;
      assert a in init;
      MaxBelowSum(init, hi);
    }
  }

  /** For nonnegative samples whose total fits 64 bits, each GPU has min <= average <= max. */
  lemma GpuSummaryBounds(rs: seq<Reading>, adjuster: nat)
    requires rs != [] && NonNegative(rs) && adjuster > 0 && Sum(rs) < TWO64
    ensures Fold(rs).count > 0
    ensures
      var g := GpuSummary(Fold(rs), adjuster);
      g.min <= g.average <= g.max < TWO64
  {
    var f := Fold(rs);
    FoldCounts(rs);
    SumBetween(rs, f.min, f.max);
    MaxBelowSum(rs, f.max);
    StatsBounds(f, adjuster);
  }

  lemma SmallU64(x: nat)
    requires x < TWO64
    ensures ToU64(x) == x
  {
  }

  /** A sum is at least its greatest term and the least value for every other, and at most its
      least term and the greatest value for every other. */
  lemma {:induction false} SumOfRest(rs: seq<Reading>, n: nat, lo: int, hi: int)
    requires |rs| == n + 1 && forall r :: r in rs ==> lo <= r.value <= hi
    ensures (exists r :: r in rs && r.value == hi) ==> Sum(rs) >= hi + n * lo
    ensures (exists r :: r in rs && r.value == lo) ==> Sum(rs) <= lo + n * hi
  {
    var init, r := rs[..n], rs[n];
    assert r in rs && (forall q :: q in init ==> q in rs) && (forall q :: q in rs ==> q == r || q in init);
    SumBetween(init, lo, hi);
    if n > 0 {
      SumOfRest(init, n - 1, lo, hi);
      Distribute(n - 1, lo);
      Distribute(n - 1, hi);
    }
  }

  /** The statistics of 64-bit samples: the values and their total are `int64_t`, the adjuster is
      `unsigned int`, and there are few enough samples. */
  ghost predicate Fits64(f: FieldStats, adjuster: nat) {
    && f.count > 0 && 0 < adjuster < TWO32
    && -TWO63 <= f.min <= f.max < TWO63
    && -TWO63 <= f.total < TWO63
    && f.count * f.count * adjuster <= TWO64
  }

  ghost predicate BetweenBounds(g: Summary) {
    g.min <= g.average <= g.max
  }

  lemma SmallQuotient(a: nat, d: nat)
    requires a < d
    ensures Div(a, d) == 0
  {
  }

  lemma DivAtLeast(a: nat, d: nat, q: nat)
    requires d > 0 && d * q <= a
    ensures Div(a, d) >= q
  {
    QuotientBetween(a, d, q, a);
  }

  lemma DivAtMost(a: nat, d: nat, q: nat)
    requires d > 0 && a < d * q
    ensures Div(a, d) < q
  {
    if q <= Div(a, d) {
      MulMono(d, q, Div(a, d));
    }
  }

  lemma Wraps(q: nat)
    requires 0 < q <= TWO63
    ensures ToU64(0 - q) == TWO64 - q
  {
  }

  lemma WrapsTotal(t: int)
    requires -TWO63 <= t < 0
    ensures ToU64(t) == TWO64 + t
  {
  }

  lemma NegativeProduct(n: nat, x: int)
    requires n > 0 && x < 0
    ensures n * x < 0
  {
  }

  /** A total that is not negative over samples that round to zero or more. */
  lemma PlainBounds(f: FieldStats, d: nat)
    requires Fits64(f, d) && f.count * f.min <= f.total <= f.count * f.max
    requires f.total >= 0 && f.min + d > 0
    ensures BetweenBounds(GpuSummary(f, d))
  {
    if f.max < 0 {
      NegativeProduct(f.count, f.max);
    }
    var average := Div(f.total, f.count);
    SmallU64(f.total);
    QuotientBetween(f.total, f.count, 0, f.max);
    DivMono(average, f.max, d);
    SmallU64(Div(f.max, d));
    if f.min >= 0 {
      QuotientBetween(f.total, f.count, f.min, f.max);
      DivMono(f.min, average, d);
      SmallU64(Div(f.min, d));
    } else {
      SmallQuotient(-f.min, d);
    }
  }

  /** A minimum that rounds below zero wraps above every average of more than one unit. */
  lemma WrappedMinimum(f: FieldStats, d: nat)
    requires Fits64(f, d) && f.min + d <= 0 && !(f.count == 1 && d == 1)
    ensures GpuSummary(f, d).average < GpuSummary(f, d).min
  {
    var q := Div(-f.min, d);
    DivAtLeast(-f.min, d, 1);
    DivMono(0, -f.min, d);
    Wraps(q);
    var u := ToU64(f.total);
    assert u < TWO64;
    if f.count >= 2 {
      MulMono(TWO63, 2, f.count);
      DivAtMost(u, f.count, TWO63);
      DivMono(0, Div(u, f.count), d);
    } else {
      DivAtMost(u, 1, u + 1);
      MulMono(TWO63, 2, d);
      DivAtMost(Div(u, 1), d, TWO63);
    }
  }

  /** n samples above -d add up to more than -nd. */
  lemma TotalAbove(n: nat, lo: int, d: nat, t: int)
    requires n > 0 && n * lo <= t < 0 && lo + d > 0
    ensures -(n * d) <= t
  {
    if lo < 0 {
      MulMono(n, -lo, d);
      assert n * lo == -(n * -lo);
    } else {
      MulMono(n, 0, lo);
    }
  }

  lemma RoomFor(n: nat, d: nat, t: int)
    requires n > 1 && n * n * d <= TWO64 && -(n * d) <= t
    ensures n * (d * (n - 1)) <= TWO64 + t
  {
    assert n * (d * (n - 1)) == n * n * d - n * d;
  }

  lemma AverageAbove(f: FieldStats, d: nat)
    requires Fits64(f, d) && f.count * f.min <= f.total < 0 && f.min + d > 0
    ensures Div(Div(TWO64 + f.total, f.count), d) >= Max(1, f.count - 1)
  {
    var n, m := f.count, Max(1, f.count - 1);
    TotalAbove(n, f.min, d, f.total);
    if n > 1 {
      RoomFor(n, d, f.total);
    }
    DivAtLeast(TWO64 + f.total, n, d * m);
    DivAtLeast(Div(TWO64 + f.total, n), d, m);
  }

  lemma MaximumBelow(f: FieldStats, d: nat)
    requires Fits64(f, d) && f.max + (f.count - 1) * f.min <= f.total < 0 && f.min + d > 0
    ensures ToU64(TruncDiv(f.max, d)) < Max(1, f.count - 1)
  {
    var n := f.count;
    if f.max < 0 {
      SmallQuotient(-f.max, d);
    } else {
      assert f.min < 0 by {
        if f.min >= 0 {
          MulMono(n - 1, 0, f.min);
        }
      }
      MulMono(n - 1, -f.min, d);
      assert (n - 1) * f.min == -((n - 1) * -f.min);
      assert (n - 1) * d == d * (n - 1);
      DivAtMost(f.max, d, n - 1);
      DivMono(0, f.max, d);
      SmallU64(Div(f.max, d));
    }
  }

  /** A negative total over samples that round to zero or more wraps the average above the
      maximum. */
  lemma WrappedAverage(f: FieldStats, d: nat)
    requires Fits64(f, d) && f.count * f.min <= f.total && f.max + (f.count - 1) * f.min <= f.total
    requires f.total < 0 && f.min + d > 0
    ensures GpuSummary(f, d).max < GpuSummary(f, d).average
  {
    WrapsTotal(f.total);
    AverageAbove(f, d);
    MaximumBelow(f, d);
  }

  /** A single sample divided by one is reported as it is. */
  lemma SingleSample(f: FieldStats)
    requires Fits64(f, 1) && f.count == 1 && f.min == f.total == f.max
    ensures BetweenBounds(GpuSummary(f, 1))
  {
    var u := ToU64(f.total);
    assert Div(u, 1) == u;
    if f.total < 0 {
      assert Div(-f.total, 1) == -f.total;
    }
  }

  ghost predicate KeepsOrder(f: FieldStats, adjuster: nat) {
    (f.min + adjuster > 0 && f.total >= 0) || (f.count == 1 && adjuster == 1)
  }

  lemma StatsBoundsIff(f: FieldStats, d: nat)
    requires Fits64(f, d) && f.count * f.min <= f.total <= f.count * f.max
    requires f.max + (f.count - 1) * f.min <= f.total <= f.min + (f.count - 1) * f.max
    ensures BetweenBounds(GpuSummary(f, d)) <==> KeepsOrder(f, d)
  {
    if f.count == 1 && d == 1 {
      SingleSample(f);
    } else if f.min + d <= 0 {
      WrappedMinimum(f, d);
    } else if f.total < 0 {
      WrappedAverage(f, d);
    } else {
      PlainBounds(f, d);
    }
  }

  /** For samples of either sign, a GPU has min <= average <= max exactly when no sample rounds below
      zero and their total is not negative, or there is one sample and nothing to divide by. */
  lemma GpuSummaryBoundsIff(rs: seq<Reading>, adjuster: nat)
    requires rs != [] && Fits64(Fold(rs), adjuster)
    ensures BetweenBounds(GpuSummary(Fold(rs), adjuster)) <==> KeepsOrder(Fold(rs), adjuster)
  {
    var f := Fold(rs);
    FoldCounts(rs);
    SumBetween(rs, f.min, f.max);
    SumOfRest(rs, |rs| - 1, f.min, f.max);
    StatsBoundsIff(f, adjuster);
  }

  /** So one negative sample is enough to wrap the minimum above the average. */
  lemma NegativeSampleBreaksBounds()
    ensures
      var rs := [Reading(GPU_TEMP, Ok, 1, -1000), Reading(GPU_TEMP, Ok, 2, 1000)];
      Fold(rs).count == 2 && GpuSummary(Fold(rs), 1000).average < GpuSummary(Fold(rs), 1000).min
  {
    var a, b := Reading(GPU_TEMP, Ok, 1, -1000), Reading(GPU_TEMP, Ok, 2, 1000);
    var rs := [a, b];
    assert rs[..1] == [a] && rs[..1][..0] == [];
    assert Fold([a]) == Observe(EMPTY_STATS, a);
    assert Fold(rs) == Observe(Fold([a]), b);
    assert TruncDiv(-1000, 1000) == -1;
  }

  /** `q` is `x` divided by `u`, rounded down. */
  ghost predicate Quotient(q: nat, x: int, u: nat) {
    q * u <= x < (q + 1) * u
  }

  /** What a summary says of nonnegative samples in units of `u`: the greatest and the least sample,
      and their sum over their number, each rounded down to whole units. */
  ghost predicate Summarizes(s: Summary, rs: seq<Reading>, u: nat) {
    && (exists hi :: IsMax(rs, hi) && Quotient(s.max, hi, u))
    && (exists lo :: IsMin(rs, lo) && Quotient(s.min, lo, u))
    && Quotient(s.average, Sum(rs), u * |rs|)
  }

  lemma DivIsQuotient(x: nat, u: nat)
    requires u > 0
    ensures Quotient(Div(x, u), x, u)
  {
    assert (Div(x, u) + 1) * u == Div(x, u) * u + u;
  }

  /** Dividing twice is dividing by the product. */
  lemma NestedQuotient(a: nat, q: nat, t: nat, n: nat, u: nat)
    requires n > 0 && u > 0 && Quotient(q, t, n) && Quotient(a, q, u)
    ensures Quotient(a, t, u * n)
  {
    MulMono(n, a * u, q);
    MulMono(n, q + 1, (a + 1) * u);
    assert a * (u * n) == (a * u) * n && (a + 1) * (u * n) == ((a + 1) * u) * n;
  }

  lemma StatsQuotients(f: FieldStats, u: nat)
    requires f.count > 0 && u > 0 && 0 <= f.min <= f.max <= f.total < TWO64
    ensures
      var s := GpuSummary(f, u);
      Quotient(s.max, f.max, u) && Quotient(s.min, f.min, u) && Quotient(s.average, f.total, u * f.count)
  {
    var q := Div(f.total, f.count);
    SmallU64(f.total);
    DivMono(0, f.max, u);
    DivMono(0, f.min, u);
    SmallU64(Div(f.max, u));
    SmallU64(Div(f.min, u));
    DivIsQuotient(f.max, u);
    DivIsQuotient(f.min, u);
    DivIsQuotient(f.total, f.count);
    DivIsQuotient(q, u);
    NestedQuotient(Div(q, u), q, f.total, f.count, u);
  }

  /** The summary of nonnegative samples whose total fits 64 bits is exactly that. */
  lemma GpuSummaryExact(rs: seq<Reading>, u: nat)
    requires rs != [] && NonNegative(rs) && Sum(rs) < TWO64 && u > 0
    ensures Fold(rs).count > 0 && Summarizes(GpuSummary(Fold(rs), u), rs, u)
  {
    var f := Fold(rs);
    FoldCounts(rs);
    MaxBelowSum(rs, f.max);
    SumBetween(rs, 0, f.max);
    StatsQuotients(f, u);
    assert f.count == |rs| && f.total == Sum(rs);
    assert IsMax(rs, f.max) && IsMin(rs, f.min);
  }

  /** One GPU's samples of a metric and the adjuster its summary divides by. */
  datatype GpuSamples = GpuSamples(readings: seq<Reading>, adjuster: nat)

  ghost predicate Summable(g: GpuSamples) {
    NonNegative(g.readings) && Sum(g.readings) < TWO64 && (g.readings != [] ==> g.adjuster > 0)
  }

  /** The job summary of one metric over the GPUs visited so far, before averaging. */
  ghost function AccumulateAll(gs: seq<GpuSamples>): Summary
    requires forall g :: g in gs ==> Summable(g)
  {
    if gs == [] then NO_SUMMARY
    else
      var g := gs[|gs| - 1];
      assert Summable(g);
      Accumulate(AccumulateAll(gs[..|gs| - 1]), Fold(g.readings), g.adjuster)
  }

  /** `s` has average between n times its own bounds; `p` is one more GPU. */
  lemma AccumulateOne(n: nat, a: Summary, p: Summary, s: Summary)
    requires a.average <= n * a.max && p.min <= p.average <= p.max
    requires s == Summary(Max(a.max, p.max), Min(a.min, p.min), a.average + p.average)
    ensures s.average <= (n + 1) * s.max
    ensures n == 0 || n * a.min <= a.average ==> (n + 1) * s.min <= s.average
  {
    MulMono(n, a.max, s.max);
    MulMono(n, s.min, a.min);
    assert (n + 1) * s.max == n * s.max + s.max;
    assert (n + 1) * s.min == n * s.min + s.min;
  }

  lemma {:induction false} AccumulatedBounds(gs: seq<GpuSamples>)
    requires forall g :: g in gs ==> Summable(g)
    ensures
      var s := AccumulateAll(gs);
      && s.average <= |gs| * s.max
      && ((forall g :: g in gs ==> g.readings != []) ==> gs == [] || |gs| * s.min <= s.average)
  {
    if gs != [] {
      var init, g := gs[..|gs| - 1], gs[|gs| - 1];
      assert Summable(g) && g in gs && forall h :: h in init ==> h in gs;
      AccumulatedBounds(init);
      var a := AccumulateAll(init);
      if g.readings == [] {
        assert AccumulateAll(gs) == a;
        MulMono(a.max, |init|, |gs|);
      } else {
        GpuSummaryBounds(g.readings, g.adjuster);
        AccumulateOne(|init|, a, GpuSummary(Fold(g.readings), g.adjuster), AccumulateAll(gs));
      }
    }
  }

  /** The job average never exceeds the job maximum, and is at least the job minimum
      when every GPU of the job has samples. */
  lemma JobSummaryBounds(gs: seq<GpuSamples>)
    requires gs != [] && forall g :: g in gs ==> Summable(g)
    ensures
      var s := AccumulateAll(gs);
      && Div(s.average, |gs|) <= s.max
      && ((forall g :: g in gs ==> g.readings != []) ==> s.min <= Div(s.average, |gs|))
  {
    AccumulatedBounds(gs);
    var s := AccumulateAll(gs);
    QuotientBetween(s.average, |gs|, 0, s.max);
    if forall g :: g in gs ==> g.readings != [] {
      QuotientBetween(s.average, |gs|, s.min, s.max);
    }
  }

  /** The sum of the averages of the GPUs with a summary of their own. */
  ghost function SumOfAverages(order: seq<nat>, own: map<nat, Summary>): nat {
    if order == [] then 0
    else
      var g := order[|order| - 1];
      SumOfAverages(order[..|order| - 1], own) + if g in own then own[g].average else 0
  }

  /** Some GPU's own summary has the job's maximum, and some GPU's the job's minimum. */
  ghost predicate Attained(s: Summary, order: seq<nat>, own: map<nat, Summary>) {
    && (exists g :: g in order && g in own && own[g].max == s.max)
    && (exists g :: g in order && g in own && own[g].min == s.min)
  }

  /** What the job summary is of the GPUs' own, those with samples: the greatest maximum, the least
      minimum and the sum of the averages; nothing without any. */
  ghost predicate Combines(s: Summary, order: seq<nat>, own: map<nat, Summary>) {
    && (forall g :: g in order && g in own ==> own[g].max <= s.max && s.min <= own[g].min)
    && ((exists g :: g in order && g in own) ==> Attained(s, order, own))
    && ((forall g :: g in order ==> g !in own) ==> s.max == 0 && s.min == 0xFFFF_FFFF_FFFF_FFFF)
    && s.average == SumOfAverages(order, own)
  }

  lemma CombineSilent(s: Summary, order: seq<nat>, own: map<nat, Summary>, g: nat)
    requires Combines(s, order, own) && g !in own
    ensures Combines(s, order + [g], own)
  {
    var more := order + [g];
    assert more[..|order|] == order;
    assert forall h :: h in order ==> h in more;
  }

  lemma CombineSampled(s: Summary, order: seq<nat>, own: map<nat, Summary>, g: nat)
    requires Combines(s, order, own) && g in own && own[g].min < TWO64
    ensures Combines(Summary(Max(s.max, own[g].max), Min(s.min, own[g].min), s.average + own[g].average),
                     order + [g], own)
  {
    var more := order + [g];
    var t := Summary(Max(s.max, own[g].max), Min(s.min, own[g].min), s.average + own[g].average);
    assert more[..|order|] == order && g in more;
    assert forall h :: h in order ==> h in more;
    assert Attained(t, more, own) by {
      if h :| h in order && h in own {
        assert Attained(s, order, own);
      }
    }
  }

  lemma FoldCount(rs: seq<Reading>)
    ensures Fold(rs).count == 0 <==> rs == []
  {
    if rs != [] {
      FoldCounts(rs);
    }
  }

  /** The GPUs without samples. */
  ghost function Silent(gs: seq<GpuSamples>): nat {
    if gs == [] then 0 else Silent(gs[..|gs| - 1]) + if gs[|gs| - 1].readings == [] then 1 else 0
  }

  /** By how much the averages of the GPUs with samples exceed `m`, in all. */
  ghost function Surplus(gs: seq<GpuSamples>, m: nat): int
    requires forall g :: g in gs ==> Summable(g)
  {
    if gs == [] then 0
    else
      var g := gs[|gs| - 1];
      assert Summable(g);
      Surplus(gs[..|gs| - 1], m) +
      if g.readings == [] then 0 else GpuSummary(Fold(g.readings), g.adjuster).average - m
  }

  lemma AccumulateOneMore(gs: seq<GpuSamples>, m: nat)
    requires gs != [] && forall g :: g in gs ==> Summable(g)
    ensures
      var init, g := gs[..|gs| - 1], gs[|gs| - 1];
      if g.readings == []
      then
        && AccumulateAll(gs).average == AccumulateAll(init).average
        && Surplus(gs, m) == Surplus(init, m) && Silent(gs) == Silent(init) + 1
      else
        && Summable(g) && Fold(g.readings).count > 0
        && AccumulateAll(gs).average == AccumulateAll(init).average + GpuSummary(Fold(g.readings), g.adjuster).average
        && Surplus(gs, m) == Surplus(init, m) + GpuSummary(Fold(g.readings), g.adjuster).average - m
        && Silent(gs) == Silent(init)
  {
    var g := gs[|gs| - 1];
    assert Summable(g) && g in gs;
    FoldCount(g.readings);
  }

  lemma {:induction false} AverageIsSurplus(gs: seq<GpuSamples>, m: nat)
    requires forall g :: g in gs ==> Summable(g)
    ensures AccumulateAll(gs).average == Surplus(gs, m) + (|gs| - Silent(gs)) * m
  {
    if gs != [] {
      var init := gs[..|gs| - 1];
      assert forall h :: h in init ==> h in gs;
      AverageIsSurplus(init, m);
      AccumulateOneMore(gs, m);
      Distribute(|init| - Silent(init), m);
      assert |gs| - Silent(gs) == |init| - Silent(init) || |gs| - Silent(gs) == |init| - Silent(init) + 1;
    }
  }

  lemma QuotientAtLeastIff(t: nat, n: nat, m: nat)
    requires n > 0
    ensures m <= Div(t, n) <==> n * m <= t
  {
    var q := Div(t, n);
    assert n * q <= t < n * q + n;
    if m <= q {
      MulMono(n, m, q);
    } else {
      MulMono(n, q + 1, m);
      assert n * (q + 1) == n * q + n;
    }
  }

  lemma SurplusCovers(t: nat, n: nat, silent: nat, m: nat, surplus: int)
    requires n > 0 && t == surplus + (n - silent) * m
    ensures m <= Div(t, n) <==> silent * m <= surplus
  {
    QuotientAtLeastIff(t, n, m);
    assert (n - silent) * m == n * m - silent * m;
  }

  /** The job average is at least the job minimum exactly when the averages of the GPUs with samples
      exceed the minimum enough to make up for it once per GPU without. */
  lemma SilentLowerBoundIff(gs: seq<GpuSamples>)
    requires gs != [] && forall g :: g in gs ==> Summable(g)
    ensures
      var s := AccumulateAll(gs);
      s.min <= Div(s.average, |gs|) <==> Silent(gs) * s.min <= Surplus(gs, s.min)
  {
    var s := AccumulateAll(gs);
    AverageIsSurplus(gs, s.min);
    SurplusCovers(s.average, |gs|, Silent(gs), s.min, Surplus(gs, s.min));
  }

  /** So a GPU without samples drags the average below the minimum of a constant metric. */
  lemma SilentGpuBreaksLowerBound()
    ensures
      var gs := [GpuSamples([Reading(GPU_UTIL, Ok, 1, 10)], 1), GpuSamples([], 1)];
      (forall g :: g in gs ==> Summable(g)) && Div(AccumulateAll(gs).average, 2) < AccumulateAll(gs).min
  {
    var r := Reading(GPU_UTIL, Ok, 1, 10);
    var g, h := GpuSamples([r], 1), GpuSamples([], 1);
    var gs := [g, h];
    assert [r][..0] == [] && gs[..1] == [g] && gs[..1][..0] == [];
    assert Sum([r]) == 10;
    assert Fold([r]) == Observe(EMPTY_STATS, r);
    assert AccumulateAll([g]) == Accumulate(NO_SUMMARY, Fold([r]), 1);
    assert AccumulateAll(gs) == AccumulateAll([g]);
  }
}
