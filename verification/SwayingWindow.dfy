/** A bias window that becomes ready, is never reported as moving, and is still refused by the
    filter's start (native/src/imu_six_axis.hpp:24-61): an IMU that sways a little while its
    acceleration sits at the lower edge of what the window tolerates. */
module SwayingWindow {
  import opened Prelude
  import opened Vectors
  import opened BiasWindow
  import opened AttitudeFilter

  const LEVEL: real := 8.8259

  /** 0.9 g to within a hair, tilted by a tenth of a metre per second squared to either side. */
  function Sway(k: nat): Vec3 { [LEVEL, if k % 2 == 0 then 0.1 else -0.1, 0.0] }

  function Swaying(n: nat): (r: seq<Vec3>)
    ensures |r| == n
  {
    if n == 0 then [] else Swaying(n - 1) + [Sway(n - 1)]
  }

  function Quiet(n: nat): (r: seq<Vec3>)
    ensures |r| == n
  {
    if n == 0 then [] else Quiet(n - 1) + [[0.0, 0.0, 0.0]]
  }

  lemma OneFurther(xs: seq<real>, x: real, c: real)
    ensures Total(xs + [x]) == Total(xs) + x && Deviations(xs + [x], c) == Deviations(xs, c) + Square(x - c)
  {
    assert (xs + [x])[..|xs|] == xs;
  }

  lemma AxisFurther(n: nat, i: nat)
    requires n > 0 && i < 3
    ensures Axis(Swaying(n), i) == Axis(Swaying(n - 1), i) + [Sway(n - 1)[i]]
    ensures Axis(Quiet(n), i) == Axis(Quiet(n - 1), i) + [0.0]
  {
    AxisStep(Swaying(n - 1), Sway(n - 1), i);
    AxisStep(Quiet(n - 1), [0.0, 0.0, 0.0], i);
    assert [0.0, 0.0, 0.0][i] == 0.0;
    hide Axis;
  }

  /** Sums and squared deviations of each axis. */
  lemma {:induction false} LevelSums(n: nat)
    ensures Total(Axis(Swaying(n), 0)) == n as real * LEVEL && Deviations(Axis(Swaying(n), 0), LEVEL) == 0.0
  {
    if n > 0 {
      LevelSums(n - 1);
      AxisFurther(n, 0);
      OneFurther(Axis(Swaying(n - 1), 0), LEVEL, LEVEL);
      hide Axis, Swaying, Total, Deviations;
    }
  }

  /** Where the swaying stands after `n` samples. */
  function Offset(n: nat): real { if n % 2 == 0 then 0.0 else 0.1 }

  lemma SwayAt(k: nat)
    ensures Offset(k) + Sway(k)[1] == Offset(k + 1) && Square(Sway(k)[1] - 0.0) == 0.01
  {
  }

  lemma {:induction false} SwaySums(n: nat)
    ensures Total(Axis(Swaying(n), 1)) == Offset(n) && Deviations(Axis(Swaying(n), 1), 0.0) == n as real * 0.01
  {
    hide Offset, Sway, Square, Axis, Swaying, Total, Deviations;
    if n > 0 {
      SwaySums(n - 1);
      AxisFurther(n, 1);
      OneFurther(Axis(Swaying(n - 1), 1), Sway(n - 1)[1], 0.0);
      SwayAt(n - 1);
    } else {
      NothingSwayed();
    }
  }

  lemma NothingSwayed()
    ensures Offset(0) == 0.0 && Total(Axis(Swaying(0), 1)) == 0.0 && Deviations(Axis(Swaying(0), 1), 0.0) == 0.0
  {
  }

  lemma {:induction false} FlatSums(n: nat)
    ensures Total(Axis(Swaying(n), 2)) == 0.0 && Deviations(Axis(Swaying(n), 2), 0.0) == 0.0
  {
    if n > 0 {
      FlatSums(n - 1);
      AxisFurther(n, 2);
      OneFurther(Axis(Swaying(n - 1), 2), 0.0, 0.0);
      hide Axis, Swaying, Total, Deviations;
    }
  }

  lemma {:induction false} QuietSums(n: nat, i: nat)
    requires i < 3
    ensures Total(Axis(Quiet(n), i)) == 0.0 && Deviations(Axis(Quiet(n), i), 0.0) == 0.0
  {
    if n > 0 {
      QuietSums(n - 1, i);
      AxisFurther(n, i);
      OneFurther(Axis(Quiet(n - 1), i), 0.0, 0.0);
      hide Axis, Quiet, Total, Deviations;
    }
  }

  /** The spread about the average is no larger than about any other centre. */
  lemma SpreadAtMost(xs: seq<real>)
    ensures Batch(xs).m2 <= Deviations(xs, 0.0)
  {
    AroundAverage(xs);
    SquareNonNegative(Average(xs));
    NonNegativeProduct(|xs| as real, Square(Average(xs)));
    hide Deviations, Average, Square;
  }

  lemma AverageOf(xs: seq<real>, c: real)
    requires xs != [] && Total(xs) == |xs| as real * c
    ensures Average(xs) == c
  {
    QuotientOfProduct(|xs| as real, c);
    hide Total;
  }

  /** The averages. */
  lemma Averages(n: nat)
    requires n > 0 && n % 2 == 0
    ensures MeanOf(Swaying(n)) == [LEVEL, 0.0, 0.0]
  {
    LevelSums(n);
    SwaySums(n);
    FlatSums(n);
    hide Axis, Total, Deviations, Swaying, Average;
    AverageOf(Axis(Swaying(n), 0), LEVEL);
    AverageOf(Axis(Swaying(n), 1), 0.0);
    AverageOf(Axis(Swaying(n), 2), 0.0);
  }

  /** A bound for every spread. */
  lemma Spreads(n: nat, i: nat)
    requires n > 0 && i < 3
    ensures 0.0 <= SpreadOf(Swaying(n))[i] <= n as real * 0.01 && SpreadOf(Quiet(n))[i] == 0.0
  {
    SpreadNonNegative(Swaying(n));
    SpreadNonNegative(Quiet(n));
    MomentsOfAxis(Swaying(n), i);
    MomentsOfAxis(Quiet(n), i);
    QuietSums(n, i);
    SpreadAtMost(Axis(Quiet(n), i));
    SwaySpread(n, i);
    hide SpreadOf, Batch, Axis, Total, Deviations;
  }

  lemma SwaySpread(n: nat, i: nat)
    requires n > 0 && i < 3
    ensures Batch(Axis(Swaying(n), i)).m2 <= n as real * 0.01
  {
    hide Axis, Total, Deviations, Swaying, Average;
    if i == 0 {
      LevelSums(n);
      AverageOf(Axis(Swaying(n), 0), LEVEL);
    } else if i == 1 {
      SwaySums(n);
      SpreadAtMost(Axis(Swaying(n), 1));
    } else {
      FlatSums(n);
      SpreadAtMost(Axis(Swaying(n), 2));
    }
  }

  /** So the window is stationary at every length that is tested. */
  lemma IsStationary(m: Maths, n: nat)
    requires m.Valid() && n > 50
    ensures Stationary(m, n, SpreadOf(Swaying(n)), SpreadOf(Quiet(n)))
  {
    forall i | 0 <= i < 3 ensures AxisStationary(m, n, SpreadOf(Swaying(n)), SpreadOf(Quiet(n)), i) {
      Spreads(n, i);
      hide SpreadOf, Swaying, Quiet;
      SmallRoot(m, SpreadOf(Swaying(n))[i], n, ACCEL_DEVIATION);
      SmallRoot(m, SpreadOf(Quiet(n))[i], n, GYRO_DEVIATION);
    }
  }

  lemma SmallRoot(m: Maths, x: real, n: nat, bound: real)
    requires m.Valid() && n > 50 && bound > 0.0 && 0.0 <= x <= (n - 1) as real * Square(bound)
    ensures m.root(x / (n - 1) as real) <= bound
  {
    var k := (n - 1) as real;
    SmallQuotient(x, k, Square(bound));
    RootCompare(m, x / k, bound);
    hide Maths.Valid, Square;
  }

  lemma SmallQuotient(x: real, k: real, bound: real)
    requires k > 0.0 && 0.0 <= x <= k * bound
    ensures 0.0 <= x / k <= bound
  {
    var q := x / k;
    assert q * k == x;
    if q < 0.0 {
      PositiveProduct(-q, k);
    } else if q > bound {
      PositiveProduct(q - bound, k);
    }
  }

  /** Every sample is still. */
  lemma SampleIsStill(m: Maths, k: nat)
    requires m.Valid()
    ensures Still(m, Sway(k), [0.0, 0.0, 0.0])
  {
    var a, w: Vec3 := Sway(k), [0.0, 0.0, 0.0];
    assert Norm2(a) == LEVEL * LEVEL + 0.01 && Norm2(w) == 0.0;
    RootCompare(m, Norm2(a), 0.9 * GRAVITY);
    RootCompare(m, Norm2(a), 1.1 * GRAVITY);
    RootCompare(m, Norm2(w), STILL_GYRO);
    hide Maths.Valid;
  }

  /** After an even number of samples the mean acceleration is below 0.9 g. */
  lemma MeanTooSmall(n: nat)
    requires n > 0 && n % 2 == 0
    ensures Norm2(MeanOf(Swaying(n))) < LOW_ACCEL2
  {
    Averages(n);
    hide MeanOf, Swaying;
  }

  /** The startup of the estimator on such an IMU: fourteen hundred samples, 20 ms apart, all
      accepted; the window is ready, its bias is zero, and the filter refuses to start. */
  method RefusedStart(m: Maths) returns (window: StaticBias, bias: Result<Vec3, BiasFault>, start: Result<(), FilterFault>)
    requires m.Valid()
    ensures window.Valid() && window.Ready() && window.accels == Swaying(MIN_SAMPLES) && window.gyros == Quiet(MIN_SAMPLES)
    ensures bias == Ok(MeanOf(window.gyros)) && start == Err(BadStart)
  {
    hide Swaying, Quiet, Sway, StaticBias.Valid, Maths.Valid, Still, Stationary, Summarises, SpreadOf, MeanOf, NormsWithin;
    window := new StaticBias(m);
    NoSamples();
    for k := 0 to MIN_SAMPLES
      invariant window.Valid() && window.maths == m && fresh(window) && window.accels == Swaying(k) && window.gyros == Quiet(k)
      invariant window.n == k && window.last == 20_000_000 * k && (k > 0 ==> window.first == 20_000_000)
    {
      SampleIsStill(m, k);
      OneSampleMore(k);
      if k >= 50 {
        IsStationary(m, k + 1);
      }
      var r := window.Add(Sway(k), [0.0, 0.0, 0.0], 20_000_000 * (k + 1));
      Counted(window);
      assert r.Ok?;
    }
    bias := window.Bias();
    var filter := new SixAxis(m);
    Counted(window);
    MeanTooSmall(MIN_SAMPLES);
    WindowStarts(m, window.accels, window.gyros);
    start := filter.Initialize(window.aMean, bias.value, window.last);
  }

  lemma NoSamples()
    ensures Swaying(0) == [] && Quiet(0) == []
  {
  }

  lemma OneSampleMore(k: nat)
    ensures Swaying(k + 1) == Swaying(k) + [Sway(k)] && Quiet(k + 1) == Quiet(k) + [[0.0, 0.0, 0.0]]
  {
    hide Sway;
  }

  /** What the invariant of a window says about its counters and means. */
  lemma Counted(window: StaticBias)
    requires window.Valid()
    ensures window.n == |window.accels| == |window.gyros|
    ensures window.aMean == MeanOf(window.accels) && window.aM2 == SpreadOf(window.accels) && window.wM2 == SpreadOf(window.gyros)
    ensures NormsWithin(window.accels, LOW_ACCEL2, HIGH_ACCEL2) && NormsWithin(window.gyros, 0.0, Square(STILL_GYRO))
  {
    hide MeanOf, SpreadOf, NormsWithin;
  }
}
