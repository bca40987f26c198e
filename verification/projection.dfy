/** The projection engine: linear extrapolation of a rolling-window
    utilisation to the window's reset, and the moment it would reach 100 %.
    Utilisation is a percentage (`real`); times are nanoseconds since the
    epoch and durations are nanoseconds, as Go's `time.Time`/`time.Duration`. */
module Projection {
  import opened Wrappers

  type Time = int
  type Duration = int

  const Second: Duration := 1_000_000_000
  const Hour: Duration := 3600 * Second

  /** The assumed length of the five-hour quota window. */
  const FiveHourWindow: Duration := 5 * Hour

  /** How much of the window has passed at `now`: the window length minus the
      time left until reset. */
  function Elapsed(resetsAt: Time, now: Time, window: Duration): Duration {
    window - (resetsAt - now)
  }

  /** The inputs describe a window that has started and not yet reset. */
  predicate WindowRunning(resetsAt: Time, now: Time, window: Duration) {
    resetsAt > now && window > 0 && Elapsed(resetsAt, now, window) > 0
  }

  /** Projected utilisation at reset. Present exactly when some usage was seen
      in a running window; the projection keeps the observed average rate over
      the whole window, so it exceeds the current value and is not capped. */
  function ComputeProjection(current: real, resetsAt: Time, now: Time, window: Duration): (r: Option<real>)
    ensures r.Some? <==> current > 0.0 && WindowRunning(resetsAt, now, window)
    ensures r.Some? ==> r.value / (window as real) == current / (Elapsed(resetsAt, now, window) as real)
    ensures r.Some? ==> r.value > current
  {
    if current <= 0.0 || resetsAt <= now || window <= 0 then None
    else
      var elapsed := Elapsed(resetsAt, now, window);
      if elapsed <= 0 then None
      else
        var projected := current * (window as real) / (elapsed as real);
        ProjectionFacts(current, window, elapsed);
        Some(projected)
  }

  lemma ProjectionFacts(current: real, window: Duration, elapsed: Duration)
    requires current > 0.0 && 0 < elapsed < window
    ensures (current * (window as real) / (elapsed as real)) / (window as real) == current / (elapsed as real)
    ensures current * (window as real) / (elapsed as real) > current
  {
    var w := window as real;
    var e := elapsed as real;
    var p := current * w / e;
    assert p * e == current * w;
    assert p / w == current / e by {
      assert (p / w) * e == current;
    }
    assert current * w > current * e;
  }

  /** The time, truncated to whole nanoseconds, at which the observed average
      rate would take utilisation to 100 %. */
  function TimeToSaturation(current: real, elapsed: Duration): (d: int)
    requires 0.0 < current < 100.0 && elapsed > 0
    ensures d >= 0
    ensures (d as real) * current <= (elapsed as real) * (100.0 - current)
    ensures (elapsed as real) * (100.0 - current) < ((d + 1) as real) * current
  {
    var remaining := (elapsed as real) * (100.0 - current);
    assert remaining > 0.0 by {
      MulLessCancel(0.0, elapsed as real, 100.0 - current);
    }
    FloorQuotient(remaining, current);
    (remaining / current).Floor
  }

  /** The floor of a positive quotient x/c brackets x between two consecutive
      multiples of c. */
  lemma FloorQuotient(x: real, c: real)
    requires x > 0.0 && c > 0.0
    ensures (x / c).Floor >= 0
    ensures ((x / c).Floor as real) * c <= x < (((x / c).Floor + 1) as real) * c
  {
    var q := x / c;
    assert q * c == x by {
      DivThenMul(x, c);
    }
    assert q >= 0.0 by {
      MulLessCancel(q, 0.0, c);
    }
    FloorScaled(q, c);
    assert x < ((q.Floor + 1) as real) * c;
  }

  lemma DivThenMul(a: real, c: real)
    requires c > 0.0
    ensures (a / c) * c == a
  {
  }

  lemma FloorScaled(x: real, c: real)
    requires c > 0.0
    ensures (x.Floor as real) * c <= x * c < ((x.Floor + 1) as real) * c
  {
    var f := x.Floor as real;
    assert f <= x < f + 1.0;
    MulLessCancel(x, f + 1.0, c);
    if f < x {
      MulLessCancel(f, x, c);
    }
  }

  /** Estimated saturation time. Present only for a usage strictly between 0
      and 100 % in a running window, and only when it falls strictly before the
      reset; it is then the last whole nanosecond at which the average rate
      has not yet consumed the remaining allowance. */
  function ComputeSaturationTime(current: real, resetsAt: Time, now: Time, window: Duration): (r: Option<Time>)
    ensures r.Some? ==> 0.0 < current < 100.0 && WindowRunning(resetsAt, now, window)
    ensures r.Some? ==> now <= r.value < resetsAt
    ensures r.Some? ==>
      var e := Elapsed(resetsAt, now, window) as real;
      && ((r.value - now) as real) * current <= e * (100.0 - current)
      && e * (100.0 - current) < ((r.value - now + 1) as real) * current
  {
    if current <= 0.0 || current >= 100.0 || resetsAt <= now || window <= 0 then None
    else
      var elapsed := Elapsed(resetsAt, now, window);
      if elapsed <= 0 then None
      else
        var saturation := now + TimeToSaturation(current, elapsed);
        if saturation >= resetsAt then None else Some(saturation)
  }

  /** In a running window, saturation arrives before the reset exactly when
      the exact time to saturation is shorter than the time left. */
  lemma SaturationBeforeReset(current: real, resetsAt: Time, now: Time, window: Duration)
    requires 0.0 < current < 100.0 && WindowRunning(resetsAt, now, window)
    ensures ComputeSaturationTime(current, resetsAt, now, window).Some?
        <==> (Elapsed(resetsAt, now, window) as real) * (100.0 - current) < ((resetsAt - now) as real) * current
  {
    var e := Elapsed(resetsAt, now, window);
    var d := TimeToSaturation(current, e);
    var u := resetsAt - now;
    assert ComputeSaturationTime(current, resetsAt, now, window).Some? <==> d < u;
    FloorBeforeBound(d, u, (e as real) * (100.0 - current), current);
  }

  /** For d the floor of x/c (c > 0) and an integer u: d < u exactly when x < u·c. */
  lemma FloorBeforeBound(d: int, u: int, x: real, c: real)
    requires c > 0.0
    requires (d as real) * c <= x < ((d + 1) as real) * c
    ensures d < u <==> x < (u as real) * c
  {
    var lo := (d as real) * c;
    var hi := ((d + 1) as real) * c;
    var bound := (u as real) * c;
    if d < u {
      assert hi <= bound by {
        MulLeMono((d + 1) as real, u as real, c);
      }
    } else {
      assert bound <= lo by {
        MulLeMono(u as real, d as real, c);
      }
    }
  }

  lemma MulLeMono(a: real, b: real, c: real)
    requires a <= b && c > 0.0
    ensures a * c <= b * c
  {
    assert (b - a) * c >= 0.0;
  }

  /** For a usage strictly between 0 and 100 %, a saturation time exists
      exactly when the projection exists and exceeds 100 %. This is what lets
      the fetch compute the saturation only behind the "projected > 100" gate. */
  lemma {:induction false} SaturationIffProjectionOver100(current: real, resetsAt: Time, now: Time, window: Duration)
    requires 0.0 < current < 100.0
    ensures ComputeSaturationTime(current, resetsAt, now, window).Some?
        <==> (ComputeProjection(current, resetsAt, now, window).Some?
              && ComputeProjection(current, resetsAt, now, window).value > 100.0)
  {
    if WindowRunning(resetsAt, now, window) {
      SaturationBeforeReset(current, resetsAt, now, window);
      var e := Elapsed(resetsAt, now, window) as real;
      var u := (resetsAt - now) as real;
      var w := window as real;
      var p := ComputeProjection(current, resetsAt, now, window).value;
      assert p * e == current * w by {
        assert p / w == current / e;
        DivThenMul(p, w);
        DivThenMul(current, e);
      }
      OverHundredIff(current, e, u, w, p);
    }
  }

  /** The arithmetic behind the previous lemma: with w = e + u and p·e = c·w,
      e·(100 − c) < u·c holds exactly when 100 < p. */
  lemma OverHundredIff(c: real, e: real, u: real, w: real, p: real)
    requires e > 0.0 && w == e + u && p * e == c * w
    ensures e * (100.0 - c) < u * c <==> 100.0 < p
  {
    assert e * (100.0 - c) < u * c <==> 100.0 * e < c * w;
    MulLessCancel(100.0, p, e);
  }

  lemma MulLessCancel(a: real, b: real, e: real)
    requires e > 0.0
    ensures a * e < b * e <==> a < b
  {
    if a < b {
      assert (b - a) * e > 0.0;
    } else {
      assert (a - b) * e >= 0.0;
    }
  }

  /** The saturation as the fetch computes it, behind the projection gate. */
  function GatedSaturation(current: real, resetsAt: Time, now: Time, window: Duration): Option<Time> {
    var projected := ComputeProjection(current, resetsAt, now, window);
    if projected.Some? && projected.value > 100.0 then ComputeSaturationTime(current, resetsAt, now, window)
    else None
  }

  /** In exact arithmetic the "projected > 100" gate never hides a saturation
      time: for usage at or above 100 % there is none to hide, and below it
      the two conditions coincide. The model's durations do not overflow;
      Go's 64-bit `time.Duration` conversion can, and then the gate matters. */
  lemma {:induction false} GateIsRedundant(current: real, resetsAt: Time, now: Time, window: Duration)
    ensures GatedSaturation(current, resetsAt, now, window) == ComputeSaturationTime(current, resetsAt, now, window)
  {
    if 0.0 < current < 100.0 {
      SaturationIffProjectionOver100(current, resetsAt, now, window);
    }
  }
}
