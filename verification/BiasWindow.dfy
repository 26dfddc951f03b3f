/** Startup gyro bias: online mean and variance with a stillness gate
    (native/src/imu_six_axis.hpp:18-49). */
module BiasWindow {
  import opened Prelude
  import opened Vectors

  datatype BiasFault = Timestamp | Moving | NotStationary | Incomplete

  const GRAVITY: real := 9.80665
  const MAX_GAP: nat := 30_000_000
  const MIN_SAMPLES: nat := 1400
  const MIN_SPAN: nat := 15_000_000_000

  // ---- batch statistics ----------------------------------------------------

  function Total(xs: seq<real>): real {
    if xs == [] then 0.0 else Total(xs[..|xs| - 1]) + xs[|xs| - 1]
  }

  /** Sum of squared deviations from a centre. */
  function Deviations(xs: seq<real>, c: real): real {
    if xs == [] then 0.0 else Deviations(xs[..|xs| - 1], c) + Square(xs[|xs| - 1] - c)
  }

  function Average(xs: seq<real>): real {
    if xs == [] then 0.0 else Total(xs) / |xs| as real
  }

  datatype Moments = Moments(mean: real, m2: real)

  function Batch(xs: seq<real>): Moments { Moments(Average(xs), Deviations(xs, Average(xs))) }

  /** One step of the running update. */
  function Accumulate(m: Moments, x: real, n: nat): Moments
    requires n > 0
  {
    var d := x - m.mean;
    var mean := m.mean + d / n as real;
    Moments(mean, m.m2 + Product(d, x - mean))
  }

  /** Moving the centre of a sum of squares. */
  lemma {:induction false} Recentre(xs: seq<real>, c: real)
    ensures Deviations(xs, c) == Deviations(xs, 0.0) - 2.0 * Product(c, Total(xs)) + Product(|xs| as real, Square(c))
  {
    if xs != [] {
      var front, x := xs[..|xs| - 1], xs[|xs| - 1];
      Recentre(front, c);
      RecentreStep(c, x, Total(front), |front| as real);
    }
  }

  lemma RecentreStep(c: real, x: real, t: real, n: real)
    ensures Square(x - c) == Square(x - 0.0) - 2.0 * Product(c, x) + Square(c)
    ensures Product(c, t + x) == Product(c, t) + Product(c, x)
    ensures Product(n + 1.0, Square(c)) == Product(n, Square(c)) + Square(c)
  {
  }

  lemma TotalOfAverage(xs: seq<real>)
    ensures Total(xs) == Product(|xs| as real, Average(xs))
  {
    if xs != [] {
      var q := Total(xs) / |xs| as real;
      assert q * |xs| as real == Total(xs);
    }
  }

  /** Around the average: the sum of squares loses `n` times the squared average. */
  lemma AroundAverage(xs: seq<real>)
    ensures Deviations(xs, Average(xs)) == Deviations(xs, 0.0) - Product(|xs| as real, Square(Average(xs)))
  {
    hide Product, Square, Total, Average, Deviations;
    var m, n := Average(xs), |xs| as real;
    Recentre(xs, m);
    TotalOfAverage(xs);
    ProductSquare(m, n);
  }

  lemma ProductSquare(m: real, n: real)
    ensures Product(m, Product(n, m)) == Product(n, Square(m))
  {
  }

  /** The running update computes the batch mean and the batch sum of squared deviations. */
  lemma Welford(xs: seq<real>, x: real)
    ensures Accumulate(Batch(xs), x, |xs| + 1) == Batch(xs + [x])
  {
    var all, n := xs + [x], |xs| as real;
    var m := Average(xs);
    assert all[..|all| - 1] == xs;
    TotalOfAverage(xs);
    var next := m + (x - m) / (n + 1.0);
    MeanStep(n, m, x, next);
    assert Total(all) == Product(n + 1.0, next);
    QuotientOfProduct(n + 1.0, next);
    assert Average(all) == next;
    AroundAverage(xs);
    AroundAverage(all);
    assert Deviations(all, 0.0) == Deviations(xs, 0.0) + Square(x - 0.0);
    VarianceStep(n, m, x, next);
  }

  lemma MeanStep(n: real, m: real, x: real, next: real)
    requires n >= 0.0 && next == m + (x - m) / (n + 1.0)
    ensures Product(n + 1.0, next) == Product(n, m) + x
    ensures x - m == Product(n + 1.0, next - m)
    ensures x - next == Product(n, next - m)
  {
    var e := (x - m) / (n + 1.0);
    assert e * (n + 1.0) == x - m;
  }

  lemma QuotientOfProduct(n: real, x: real)
    requires n > 0.0
    ensures Product(n, x) / n == x
  {
  }

  lemma VarianceStep(n: real, m: real, x: real, next: real)
    requires x - m == Product(n + 1.0, next - m) && x - next == Product(n, next - m)
    ensures Product(x - m, x - next) - Product(n, Square(m)) == Square(x - 0.0) - Product(n + 1.0, Square(next))
  {
    var d := next - m;
    var p := n * d;
    assert x == m + p + d && next == m + d;
    assert (p + d) * p == p * p + d * p;
    assert (m + p + d) * (m + p + d) == m * m + p * p + d * d + 2.0 * (m * p) + 2.0 * (m * d) + 2.0 * (p * d);
    assert (m + d) * (m + d) == m * m + 2.0 * (m * d) + d * d;
    assert n * ((m + d) * (m + d)) == n * (m * m) + 2.0 * (m * p) + p * d;
  }

  // ---- three axes ----------------------------------------------------------

  function Axis(samples: seq<Vec3>, i: nat): (xs: seq<real>)
    requires i < 3
    ensures |xs| == |samples|
  {
    if samples == [] then [] else Axis(samples[..|samples| - 1], i) + [samples[|samples| - 1][i]]
  }

  function MeanOf(samples: seq<Vec3>): Vec3 {
    [Average(Axis(samples, 0)), Average(Axis(samples, 1)), Average(Axis(samples, 2))]
  }

  function SpreadOf(samples: seq<Vec3>): Vec3 {
    [Batch(Axis(samples, 0)).m2, Batch(Axis(samples, 1)).m2, Batch(Axis(samples, 2)).m2]
  }

  lemma AxisStep(samples: seq<Vec3>, v: Vec3, i: nat)
    requires i < 3
    ensures Axis(samples + [v], i) == Axis(samples, i) + [v[i]]
  {
    assert (samples + [v])[..|samples|] == samples;
  }

  function NormSum(samples: seq<Vec3>): real {
    if samples == [] then 0.0 else NormSum(samples[..|samples| - 1]) + Norm2(samples[|samples| - 1])
  }

  lemma {:induction false} NormSumByAxis(samples: seq<Vec3>)
    ensures NormSum(samples)
            == Deviations(Axis(samples, 0), 0.0) + Deviations(Axis(samples, 1), 0.0) + Deviations(Axis(samples, 2), 0.0)
  {
    if samples != [] {
      var front, v := samples[..|samples| - 1], samples[|samples| - 1];
      NormSumByAxis(front);
      AxisDeviation(samples, 0);
      AxisDeviation(samples, 1);
      AxisDeviation(samples, 2);
    }
  }

  lemma AxisDeviation(samples: seq<Vec3>, i: nat)
    requires samples != [] && i < 3
    ensures Deviations(Axis(samples, i), 0.0)
            == Deviations(Axis(samples[..|samples| - 1], i), 0.0) + Square(samples[|samples| - 1][i])
  {
    var xs := Axis(samples, i);
    assert xs[..|xs| - 1] == Axis(samples[..|samples| - 1], i);
    assert xs[|xs| - 1] - 0.0 == samples[|samples| - 1][i];
  }

  predicate NormsWithin(samples: seq<Vec3>, low: real, high: real) {
    forall k :: 0 <= k < |samples| ==> low <= Norm2(samples[k]) <= high
  }

  lemma {:induction false} NormSumBounds(samples: seq<Vec3>, low: real, high: real)
    requires NormsWithin(samples, low, high)
    ensures Product(|samples| as real, low) <= NormSum(samples) <= Product(|samples| as real, high)
  {
    hide Norm2;
    if samples != [] {
      var n := |samples| as real - 1.0;
      NormSumBounds(samples[..|samples| - 1], low, high);
      Distribute(low, n, 1.0);
      Distribute(high, n, 1.0);
    }
  }

  /** Steiner's identity over three axes: the squared mean is the mean square minus the spread. */
  lemma MeanSquare(samples: seq<Vec3>)
    ensures var d := SpreadOf(samples);
            Product(|samples| as real, Norm2(MeanOf(samples))) == NormSum(samples) - (d[0] + d[1] + d[2])
  {
    hide Square, Product, Deviations, Average, NormSum, Axis, SpreadOf, MeanOf, Norm2;
    var n := |samples| as real;
    var x, y, z := Axis(samples, 0), Axis(samples, 1), Axis(samples, 2);
    NormSumByAxis(samples);
    AroundAverage(x);
    AroundAverage(y);
    AroundAverage(z);
    MeanParts(samples);
    Distribute(n, Square(Average(x)) + Square(Average(y)), Square(Average(z)));
    Distribute(n, Square(Average(x)), Square(Average(y)));
  }

  lemma MeanParts(samples: seq<Vec3>)
    ensures var x, y, z := Axis(samples, 0), Axis(samples, 1), Axis(samples, 2);
            Norm2(MeanOf(samples)) == Square(Average(x)) + Square(Average(y)) + Square(Average(z))
    ensures var x, y, z := Axis(samples, 0), Axis(samples, 1), Axis(samples, 2);
            var d := SpreadOf(samples);
            d[0] == Deviations(x, Average(x)) && d[1] == Deviations(y, Average(y)) && d[2] == Deviations(z, Average(z))
  {
    hide Square, Deviations, Average, Axis;
  }

  /** The mean of vectors whose length is at most a bound stays within the bound, and the
      spread is all it can fall short by. */
  lemma MeanWithin(samples: seq<Vec3>, low: real, high: real)
    requires samples != [] && NormsWithin(samples, low, high)
    ensures Norm2(MeanOf(samples)) <= high
    ensures var d := SpreadOf(samples);
            Product(|samples| as real, low) - (d[0] + d[1] + d[2]) <= Product(|samples| as real, Norm2(MeanOf(samples)))
  {
    hide Norm2, NormSum, Average;
    MeanSquare(samples);
    NormSumBounds(samples, low, high);
    SpreadNonNegative(samples);
    CancelProduct(|samples| as real, Norm2(MeanOf(samples)), high);
  }

  lemma CancelProduct(n: real, x: real, y: real)
    requires n > 0.0 && Product(n, x) <= Product(n, y)
    ensures x <= y
  {
    if x > y {
      PositiveProduct(n, x - y);
    }
  }

  lemma {:induction false} DeviationsNonNegative(xs: seq<real>, c: real)
    ensures Deviations(xs, c) >= 0.0
  {
    if xs != [] {
      DeviationsNonNegative(xs[..|xs| - 1], c);
      SquareNonNegative(xs[|xs| - 1] - c);
    }
  }

  lemma SpreadNonNegative(samples: seq<Vec3>)
    ensures var d := SpreadOf(samples); d[0] >= 0.0 && d[1] >= 0.0 && d[2] >= 0.0
  {
    forall i | 0 <= i < 3 ensures Batch(Axis(samples, i)).m2 >= 0.0 {
      DeviationsNonNegative(Axis(samples, i), Average(Axis(samples, i)));
    }
  }

  // ---- the running estimator -----------------------------------------------

  const STILL_GYRO: real := 0.1
  const ACCEL_DEVIATION: real := 0.15
  const GYRO_DEVIATION: real := 0.005

  predicate StampOk(last: nat, t: nat) {
    t > 0 && (last == 0 || (t > last && t - last <= MAX_GAP))
  }

  predicate Still(m: Maths, a: Vec3, w: Vec3) {
    Abs(m.Length(a) - GRAVITY) <= 0.1 * GRAVITY && m.Length(w) <= STILL_GYRO
  }

  /** Every axis stays under its standard deviation bound; only tested beyond 50 samples. */
  predicate Stationary(m: Maths, n: nat, aM2: Vec3, wM2: Vec3)
    requires n > 1
  {
    forall i :: 0 <= i < 3 ==> AxisStationary(m, n, aM2, wM2, i)
  }

  predicate AxisStationary(m: Maths, n: nat, aM2: Vec3, wM2: Vec3, i: nat)
    requires n > 1 && i < 3
  {
    m.root(aM2[i] / (n - 1) as real) <= ACCEL_DEVIATION && m.root(wM2[i] / (n - 1) as real) <= GYRO_DEVIATION
  }

  ghost predicate Summarises(mean: Vec3, m2: Vec3, samples: seq<Vec3>) {
    mean == MeanOf(samples) && m2 == SpreadOf(samples)
  }

  /** Updating the three axes one after the other summarises the longer sample. */
  lemma SummaryStep(samples: seq<Vec3>, v: Vec3, mean: Vec3, m2: Vec3, nextMean: Vec3, nextM2: Vec3)
    requires Summarises(mean, m2, samples)
    requires forall i :: 0 <= i < 3 ==>
      Moments(nextMean[i], nextM2[i]) == Accumulate(Moments(mean[i], m2[i]), v[i], |samples| + 1)
    ensures Summarises(nextMean, nextM2, samples + [v])
  {
    forall i | 0 <= i < 3 ensures Moments(nextMean[i], nextM2[i]) == Batch(Axis(samples + [v], i)) {
      AxisStep(samples, v, i);
      Welford(Axis(samples, i), v[i]);
      MomentsOfAxis(samples, i);
    }
    hide Accumulate, Average, Deviations, Axis;
    forall i | 0 <= i < 3 ensures nextMean[i] == MeanOf(samples + [v])[i] && nextM2[i] == SpreadOf(samples + [v])[i] {
      MomentsOfAxis(samples + [v], i);
    }
  }

  lemma MomentsOfAxis(samples: seq<Vec3>, i: nat)
    requires i < 3
    ensures Batch(Axis(samples, i)) == Moments(MeanOf(samples)[i], SpreadOf(samples)[i])
  {
    hide Average, Deviations, Axis;
  }

  const LOW_ACCEL2: real := Square(0.9 * GRAVITY)
  const HIGH_ACCEL2: real := Square(1.1 * GRAVITY)

  lemma StillNorms(m: Maths, a: Vec3, w: Vec3)
    requires m.Valid() && Still(m, a, w)
    ensures LOW_ACCEL2 <= Norm2(a) <= HIGH_ACCEL2 && 0.0 <= Norm2(w) <= Square(STILL_GYRO)
  {
    NormNonNegative(a);
    NormNonNegative(w);
    RootCompare(m, Norm2(a), 0.9 * GRAVITY);
    RootCompare(m, Norm2(a), 1.1 * GRAVITY);
    RootCompare(m, Norm2(w), STILL_GYRO);
    hide Norm2, Square;
  }

  /** Which samples are accepted, without the root: at most 30 ms after the one before, within a
      tenth of 1 g, and slower than 0.1 rad/s. */
  lemma AcceptedWhen(m: Maths, last: nat, t: nat, a: Vec3, w: Vec3)
    requires m.Valid()
    ensures StampOk(last, t) && Still(m, a, w) <==>
            && t > 0 && (last == 0 || last < t <= last + 30_000_000)
            && Square(0.9 * 9.80665) <= Norm2(a) <= Square(1.1 * 9.80665) && Norm2(w) <= Square(0.1)
  {
    NormNonNegative(a);
    NormNonNegative(w);
    RootCompare(m, Norm2(a), 0.9 * GRAVITY);
    RootCompare(m, Norm2(a), 1.1 * GRAVITY);
    RootCompare(m, Norm2(w), STILL_GYRO);
    hide Maths.Valid, Norm2, Square;
  }

  /** When an axis is stationary, without root and quotient: the squared deviations are those of
      standard deviations of at most 0.15 m/s^2 and 0.005 rad/s. */
  lemma StationaryWhen(m: Maths, n: nat, aM2: Vec3, wM2: Vec3, i: nat)
    requires m.Valid() && n > 1 && i < 3 && aM2[i] >= 0.0 && wM2[i] >= 0.0
    ensures AxisStationary(m, n, aM2, wM2, i) <==>
            aM2[i] <= Product(Square(0.15), (n - 1) as real) && wM2[i] <= Product(Square(0.005), (n - 1) as real)
  {
    var k := (n - 1) as real;
    DeviationCompare(m, aM2[i], k, ACCEL_DEVIATION);
    DeviationCompare(m, wM2[i], k, GYRO_DEVIATION);
    hide Maths.Valid, Square, Product;
  }

  lemma DeviationCompare(m: Maths, m2: real, k: real, bound: real)
    requires m.Valid() && m2 >= 0.0 && k > 0.0 && bound >= 0.0
    ensures m.root(m2 / k) <= bound <==> m2 <= Product(Square(bound), k)
  {
    var q := m2 / k;
    ZeroTimes(k);
    QuotientAtLeast(m2, k, 0.0);
    RootCompare(m, q, bound);
    QuotientAtMost(m2, k, Square(bound));
    hide *;
  }

  lemma QuotientAtMost(x: real, y: real, c: real)
    requires y > 0.0
    ensures x / y <= c <==> x <= Product(c, y)
  {
    var q := x / y;
    assert q * y == x;
    if q <= c {
      NonNegativeProduct(c - q, y);
    } else {
      PositiveProduct(q - c, y);
    }
  }

  /** The running update written out. */
  lemma AccumulateParts(mean: real, m2: real, x: real, n: nat)
    requires n > 0
    ensures var next := mean + (x - mean) / n as real;
            Accumulate(Moments(mean, m2), x, n) == Moments(next, m2 + Product(x - mean, x - next))
  {
  }

  class StaticBias {
    const maths: Maths
    var aMean: Vec3
    var wMean: Vec3
    var aM2: Vec3
    var wM2: Vec3
    var first: nat
    var last: nat
    var n: nat
    ghost var accels: seq<Vec3>
    ghost var gyros: seq<Vec3>

    /** The running values are the batch statistics of everything accepted so far. */
    ghost predicate Valid()
      reads this
    {
      && maths.Valid() && n == |accels| == |gyros| && first <= last
      && Summarises(aMean, aM2, accels) && Summarises(wMean, wM2, gyros)
      && NormsWithin(accels, LOW_ACCEL2, HIGH_ACCEL2) && NormsWithin(gyros, 0.0, Square(STILL_GYRO))
    }

    constructor (maths: Maths)
      requires maths.Valid()
      ensures Valid() && n == 0 && last == 0 && this.maths == maths
    {
      this.maths := maths;
      aMean, wMean, aM2, wM2 := [0.0, 0.0, 0.0], [0.0, 0.0, 0.0], [0.0, 0.0, 0.0], [0.0, 0.0, 0.0];
      first, last, n, accels, gyros := 0, 0, 0, [], [];
    }

    /** `add`. A window that stops being stationary is reported after the sample was counted. */
    method Add(a: Vec3, w: Vec3, timestamp: nat) returns (r: Result<(), BiasFault>)
      requires Valid()
      modifies this
      ensures Valid()
      ensures if !StampOk(old(last), timestamp) then r == Err(Timestamp) && unchanged(this)
              else if !Still(maths, a, w) then r == Err(Moving) && unchanged(this)
              else
                && accels == old(accels) + [a] && gyros == old(gyros) + [w]
                && last == timestamp && first == (if old(n) == 0 then timestamp else old(first))
                && r == if n > 50 && !Stationary(maths, n, aM2, wM2) then Err(NotStationary) else Ok(())
    {
      if timestamp == 0 || (last != 0 && (timestamp <= last || timestamp - last > MAX_GAP)) {
        return Err(Timestamp);
      }
      if Abs(maths.Length(a) - GRAVITY) > 0.1 * GRAVITY || maths.Length(w) > STILL_GYRO {
        return Err(Moving);
      }
      StillNorms(maths, a, w);
      hide Maths.Valid, Summarises, NormsWithin, Still, AxisStationary;
      if n == 0 {
        first := timestamp;
      }
      last := timestamp;
      AddAxes(a, w);
      NormsGrow(old(accels), a, LOW_ACCEL2, HIGH_ACCEL2);
      NormsGrow(old(gyros), w, 0.0, Square(STILL_GYRO));
      if n > 50 {
        for i := 0 to 3
          invariant forall k :: 0 <= k < i ==> AxisStationary(maths, n, aM2, wM2, k)
        {
          if AxisExceeds(i) {
            return Err(NotStationary);
          }
        }
      }
      return Ok(());
    }

    predicate AxisExceeds(i: nat)
      requires n > 1 && i < 3
      reads this
      ensures AxisExceeds(i) == !AxisStationary(maths, n, aM2, wM2, i)
    {
      maths.root(aM2[i] / (n - 1) as real) > ACCEL_DEVIATION || maths.root(wM2[i] / (n - 1) as real) > GYRO_DEVIATION
    }

    /** The running update of all six axes. */
    method AddAxes(a: Vec3, w: Vec3)
      requires n == |accels| == |gyros| && Summarises(aMean, aM2, accels) && Summarises(wMean, wM2, gyros)
      modifies this`aMean, this`wMean, this`aM2, this`wM2, this`n, this`accels, this`gyros
      ensures n == old(n) + 1 && accels == old(accels) + [a] && gyros == old(gyros) + [w]
      ensures Summarises(aMean, aM2, accels) && Summarises(wMean, wM2, gyros)
    {
      hide Summarises, Product, Accumulate;
      n := n + 1;
      for i := 0 to 3
        invariant n == old(n) + 1 && accels == old(accels) && gyros == old(gyros)
        invariant forall k :: 0 <= k < i ==>
          && Moments(aMean[k], aM2[k]) == Accumulate(Moments(old(aMean)[k], old(aM2)[k]), a[k], n)
          && Moments(wMean[k], wM2[k]) == Accumulate(Moments(old(wMean)[k], old(wM2)[k]), w[k], n)
        invariant forall k :: i <= k < 3 ==>
          aMean[k] == old(aMean)[k] && aM2[k] == old(aM2)[k] && wMean[k] == old(wMean)[k] && wM2[k] == old(wM2)[k]
      {
        AccumulateParts(aMean[i], aM2[i], a[i], n);
        AccumulateParts(wMean[i], wM2[i], w[i], n);
        var da, dw := a[i] - aMean[i], w[i] - wMean[i];
        aMean := aMean[i := aMean[i] + da / n as real];
        wMean := wMean[i := wMean[i] + dw / n as real];
        aM2 := aM2[i := aM2[i] + Product(da, a[i] - aMean[i])];
        wM2 := wM2[i := wM2[i] + Product(dw, w[i] - wMean[i])];
      }
      SummaryStep(accels, a, old(aMean), old(aM2), aMean, aM2);
      SummaryStep(gyros, w, old(wMean), old(wM2), wMean, wM2);
      accels, gyros := accels + [a], gyros + [w];
    }

    predicate Ready()
      reads this
    {
      n >= MIN_SAMPLES && last - first >= MIN_SPAN
    }

    /** `bias`: what is returned is the mean of the accepted gyro samples, so it is within
        the 0.1 rad/s that `initialize` and the packet validator demand. */
    method Bias() returns (r: Result<Vec3, BiasFault>)
      requires Valid()
      ensures r == if n >= 1400 && last - first >= 15_000_000_000 then Ok(MeanOf(gyros)) else Err(Incomplete)
      ensures r.Ok? ==> Norm2(r.value) <= Square(STILL_GYRO) && maths.Length(r.value) <= STILL_GYRO
    {
      if !Ready() {
        return Err(Incomplete);
      }
      MeanWithin(gyros, 0.0, Square(STILL_GYRO));
      NormNonNegative(wMean);
      RootCompare(maths, Norm2(wMean), STILL_GYRO);
      return Ok(wMean);
    }
  }

  lemma NormsGrow(samples: seq<Vec3>, v: Vec3, low: real, high: real)
    requires NormsWithin(samples, low, high) && low <= Norm2(v) <= high
    ensures NormsWithin(samples + [v], low, high)
  {
  }

  /** The averaged acceleration of a stationary window never exceeds 1.1 g and can undershoot
      0.9 g only by the spread, so `initialize` can refuse it only in a sliver. */
  lemma MeanAcceleration(m: Maths, samples: seq<Vec3>, wM2: Vec3)
    requires m.Valid() && |samples| > 1 && NormsWithin(samples, LOW_ACCEL2, HIGH_ACCEL2)
    requires Stationary(m, |samples|, SpreadOf(samples), wM2)
    ensures Norm2(MeanOf(samples)) <= HIGH_ACCEL2
    ensures LOW_ACCEL2 - 3.0 * Square(ACCEL_DEVIATION) <= Norm2(MeanOf(samples))
  {
    var n, d := |samples| as real, SpreadOf(samples);
    MeanWithin(samples, LOW_ACCEL2, HIGH_ACCEL2);
    SpreadNonNegative(samples);
    forall i | 0 <= i < 3 ensures d[i] <= Product(n, Square(ACCEL_DEVIATION)) {
      assert AxisStationary(m, |samples|, d, wM2, i);
      SpreadBound(m, d[i], |samples|);
    }
    hide Norm2, MeanOf, SpreadOf, Stationary, NormsWithin;
    Undershoot(n, Norm2(MeanOf(samples)), LOW_ACCEL2, Square(ACCEL_DEVIATION), d[0] + d[1] + d[2]);
  }

  lemma SpreadBound(m: Maths, m2: real, n: nat)
    requires m.Valid() && n > 1 && m2 >= 0.0 && m.root(m2 / (n - 1) as real) <= ACCEL_DEVIATION
    ensures m2 <= Product(n as real, Square(ACCEL_DEVIATION))
  {
    var k := (n - 1) as real;
    var q := m2 / k;
    assert q * k == m2;
    assert q >= 0.0 by { if q < 0.0 { PositiveProduct(-q, k); } }
    RootCompare(m, q, ACCEL_DEVIATION);
    NonNegativeProduct(Square(ACCEL_DEVIATION) - q, k);
  }

  lemma Undershoot(n: real, mean: real, low: real, v: real, spread: real)
    requires n > 0.0 && Product(n, low) - spread <= Product(n, mean) && spread <= 3.0 * Product(n, v)
    ensures low - 3.0 * v <= mean
  {
    Distribute(n, low, -3.0 * v);
    CancelProduct(n, low - 3.0 * v, mean);
  }
}
