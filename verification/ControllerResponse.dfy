/** Which way an update of the rate controller moves the rate, and where it rests. */
module ControllerResponse {
  import opened Wrappers
  import opened RealMath
  import opened ControllerSpec

  predicate NonNegativeGains(cfg: Config) {
    cfg.kp >= 0.0 && cfg.ki >= 0.0 && cfg.kd >= 0.0
  }

  /** The rate that would keep up with the present drain; on a device that is hardly used, the present rate. */
  function KeepingUp(cfg: Config, rate: real, smoothed: real, drainRate: real): real
    requires ValidConfig(cfg)
  {
    if smoothed > 0.01 then Clamp(drainRate, cfg.rateMin, cfg.rateMax) else Max(rate, cfg.rateMin)
  }

  lemma AtLeastWhole(x: real, y: real, d: real)
    requires d > 0.0 && y >= d && x >= 0.0
    ensures Times(x, Over(y, d)) >= x
  {
    var q := Over(y, d);
    Quotient(y, d);
    Distributes(q, 1.0, d);
    Unit(d);
    if q < 1.0 {
      Positive(1.0 - q, d);
      Distributes(1.0, q, d);
      assert false;
    }
    Monotone(1.0, q, x);
    Unit(x);
  }

  lemma AtMostWhole(x: real, y: real, d: real)
    requires d > 0.0 && y <= d && x >= 0.0
    ensures Times(x, Over(y, d)) <= x
  {
    var q := Over(y, d);
    Quotient(y, d);
    Distributes(q, 1.0, d);
    Unit(d);
    if q > 1.0 {
      Positive(q - 1.0, d);
      assert false;
    }
    Monotone(q, 1.0, x);
    Unit(x);
  }

  lemma BaseFollowsTarget(cfg: Config, rate: real, smoothed: real, drainRate: real)
    requires ValidConfig(cfg) && drainRate >= 0.0
    ensures var base, keeping := BaseRate(cfg, rate, smoothed, drainRate), KeepingUp(cfg, rate, smoothed, drainRate);
            && (smoothed <= cfg.target ==> base >= keeping)
            && (smoothed >= cfg.target ==> base <= keeping)
  {
    if smoothed > 0.01 {
      if smoothed <= cfg.target {
        AtLeastWhole(drainRate, cfg.target, smoothed);
      }
      if smoothed >= cfg.target {
        AtMostWhole(drainRate, cfg.target, smoothed);
      }
    }
  }

  /** A growing error of one sign, with an integral of that sign, corrects in that direction. */
  lemma CorrectionFollowsError(cfg: Config, error: real, lastError: real, integral: real, delta: real)
    requires NonNegativeGains(cfg) && delta > 0.0
    ensures var correction := Correction(cfg, error, lastError, integral, delta);
            && (error >= 0.0 && integral >= 0.0 && error >= lastError ==> correction >= 0.0)
            && (error <= 0.0 && integral <= 0.0 && error <= lastError ==> correction <= 0.0)
  {
    var slope := Over(error - lastError, delta);
    SignOfQuotient(error - lastError, delta);
    SignOfProduct(cfg.kp, error);
    SignOfProduct(cfg.ki, integral);
    SignOfProduct(cfg.kd, slope);
  }

  lemma IntegralFollowsError(cfg: Config, integral: real, error: real, delta: real)
    requires ValidConfig(cfg) && delta > 0.0
    ensures integral >= 0.0 && error >= 0.0 ==> Integral(cfg, integral, error, delta) >= 0.0
    ensures integral <= 0.0 && error <= 0.0 ==> Integral(cfg, integral, error, delta) <= 0.0
  {
    SignOfProduct(cfg.integralDecay, integral);
    Commutes(cfg.integralDecay, integral);
    SignOfProduct(delta, error);
    Commutes(delta, error);
  }

  lemma CorrectedRate(cfg: Config, base: real, correction: real)
    requires ValidConfig(cfg) && base >= 0.0
    ensures correction >= 0.0 ==> Times(base, 1.0 + correction) >= base
    ensures correction <= 0.0 ==> Times(base, 1.0 + correction) <= base
  {
    Distributes(1.0, correction, base);
    Unit(base);
    SignOfProduct(base, correction);
  }

  /** What an update decides, in its parts. */
  lemma Parts(cfg: Config, c: Control, tokens: real, measured: real, delta: real)
      returns (smoothed: real, error: real, integral: real, base: real, correction: real)
    requires ValidConfig(cfg) && delta > 0.0
    ensures smoothed == Smoothed(cfg, c.smoothed, measured) && error == cfg.target - smoothed
    ensures integral == Integral(cfg, c.integral, error, delta)
    ensures base == BaseRate(cfg, c.rate, smoothed, DrainRate(c, tokens, delta))
    ensures correction == Correction(cfg, error, c.lastError, integral, delta)
    ensures var rate := Clamp(Times(base, 1.0 + correction), cfg.rateMin, cfg.rateMax);
            Decide(cfg, c, tokens, measured, delta) ==
            Control(integral, error, Some(smoothed), rate, tokens, c.lastTime)
  {
    smoothed := Smoothed(cfg, c.smoothed, measured);
    error := cfg.target - smoothed;
    integral := Integral(cfg, c.integral, error, delta);
    base := BaseRate(cfg, c.rate, smoothed, DrainRate(c, tokens, delta));
    correction := Correction(cfg, error, c.lastError, integral, delta);
  }

  /** Under the target and getting no closer, the new rate is at least what keeps up with the drain; over the target and
      getting no closer, it is at most that. */
  lemma {:induction false} FollowsTarget(cfg: Config, c: Control, tokens: real, measured: real, delta: real)
    requires ValidConfig(cfg) && NonNegativeGains(cfg) && delta > 0.0 && c.rate <= cfg.rateMax
    ensures var c', keeping := Decide(cfg, c, tokens, measured, delta),
                KeepingUp(cfg, c.rate, Smoothed(cfg, c.smoothed, measured), DrainRate(c, tokens, delta));
            && (c'.lastError >= 0.0 && c'.lastError >= c.lastError && c.integral >= 0.0 ==> c'.rate >= keeping)
            && (c'.lastError <= 0.0 && c'.lastError <= c.lastError && c.integral <= 0.0 ==> c'.rate <= keeping)
  {
    var smoothed, error, integral, base, correction := Parts(cfg, c, tokens, measured, delta);
    BaseFollowsTarget(cfg, c.rate, smoothed, DrainRate(c, tokens, delta));
    IntegralFollowsError(cfg, c.integral, error, delta);
    CorrectionFollowsError(cfg, error, c.lastError, integral, delta);
    CorrectedRate(cfg, base, correction);
  }

  /** At the target, with nothing left of earlier errors, the controller sets the rate to the drain, and stays there for
      as long as that is what launches take. */
  lemma {:induction false} RestsAtTarget(cfg: Config, c: Control, tokens: real, delta: real)
    requires ValidConfig(cfg) && NonNegativeGains(cfg) && delta > 0.0 && c.rate <= cfg.rateMax
    requires c.smoothed == Some(cfg.target) && c.integral == 0.0 && c.lastError == 0.0
    ensures var c', drain := Decide(cfg, c, tokens, cfg.target, delta), DrainRate(c, tokens, delta);
            c' == c.(lastLevel := tokens, rate := KeepingUp(cfg, c.rate, cfg.target, drain))
    ensures cfg.rateMin <= c.rate && tokens == c.lastLevel ==>
              Decide(cfg, c, tokens, cfg.target, delta) == c
  {
    var smoothed, error, integral, base, correction := Parts(cfg, c, tokens, cfg.target, delta);
    Distributes(cfg.filterAlpha, 1.0 - cfg.filterAlpha, cfg.target);
    Unit(cfg.target);
    Unit(cfg.integralDecay);
    Unit(delta);
    IntegralFollowsError(cfg, 0.0, 0.0, delta);
    FollowsTarget(cfg, c, tokens, cfg.target, delta);
    if tokens == c.lastLevel {
      Quotient(Times(c.rate, delta), delta);
      Cancel(c.rate, delta, Times(c.rate, delta));
    }
  }

  lemma StrictlyScaled(x: real, y: real, d: real)
    requires d > 0.0 && x > 0.0
    ensures y > d ==> Times(x, Over(y, d)) > x
    ensures y < d ==> Times(x, Over(y, d)) < x
  {
    var q := Over(y, d);
    Quotient(y, d);
    Unit(d);
    Unit(x);
    Distributes(q, 1.0, x);
    Commutes(q, x);
    if y > d {
      if q <= 1.0 {
        Monotone(q, 1.0, d);
        assert false;
      }
      Positive(q - 1.0, x);
    }
    if y < d {
      if q >= 1.0 {
        Monotone(1.0, q, d);
        assert false;
      }
      Distributes(1.0, q, x);
      Positive(1.0 - q, x);
    }
  }

  /** The first update of a controller nobody has used, on a device in use: the rate goes up exactly under the target,
      down exactly over it, and stays exactly at it, as far as the limits allow. */
  lemma {:induction false} FirstUpdate(cfg: Config, measured: real, delta: real)
    requires ValidConfig(cfg) && NonNegativeGains(cfg) && delta > 0.0 && measured > 0.01
    requires cfg.rateMin < StartRate(cfg) < cfg.rateMax
    ensures var rate := Decide(cfg, Initial(cfg).control, Initial(cfg).bucket.tokens, measured, delta).rate;
            && (rate > StartRate(cfg) <==> measured < cfg.target)
            && (rate < StartRate(cfg) <==> measured > cfg.target)
  {
    var c := Initial(cfg).control;
    FollowsTarget(cfg, c, c.lastLevel, measured, delta);
    var smoothed, error, integral, base, correction := Parts(cfg, c, c.lastLevel, measured, delta);
    Cancel(c.rate, delta, Times(c.rate, delta));
    assert DrainRate(c, c.lastLevel, delta) == c.rate;
    StrictlyScaled(c.rate, cfg.target, measured);
    IntegralFollowsError(cfg, c.integral, error, delta);
    CorrectionFollowsError(cfg, error, c.lastError, integral, delta);
    CorrectedRate(cfg, base, correction);
  }

  // What each gain contributes to the rate.

  function WithoutGains(cfg: Config): Config {
    cfg.(kp := 0.0, ki := 0.0, kd := 0.0)
  }

  /** What launches took over the last delta, as the level shows it. */
  function Used(c: Control, tokens: real, delta: real): real {
    Max(0.0, c.lastLevel + Times(c.rate, delta) - tokens)
  }

  lemma ScaledUse(used: real, drain: real, target: real, smoothed: real, delta: real)
    requires smoothed > 0.0 && Times(drain, delta) == used
    ensures Times(Times(Times(drain, Over(target, smoothed)), smoothed), delta) == Times(used, target)
  {
    Associates(drain, Over(target, smoothed), smoothed);
    Quotient(target, smoothed);
    Commutes(drain, target);
    Associates(target, drain, delta);
    Commutes(target, used);
  }

  /** Without gains, on a device in use, rate and smoothed utilization are to what launches used as the target is to the
      delta, as far as the limits allow; on one that is hardly used, the rate stays. */
  lemma {:induction false} FeedForward(cfg: Config, c: Control, tokens: real, measured: real, delta: real)
    requires ValidConfig(cfg) && cfg == WithoutGains(cfg) && delta > 0.0 && c.rate <= cfg.rateMax
    ensures var c' := Decide(cfg, c, tokens, measured, delta);
            var smoothed := cfg.target - c'.lastError;
            var reached, wanted := Times(Times(c'.rate, smoothed), delta), Times(Used(c, tokens, delta), cfg.target);
            && (smoothed > 0.01 && c'.rate > cfg.rateMin ==> reached <= wanted)
            && (smoothed > 0.01 && c'.rate < cfg.rateMax ==> reached >= wanted)
            && (smoothed <= 0.01 ==> c'.rate == Max(c.rate, cfg.rateMin))
  {
    var smoothed, error, integral, base, correction := Parts(cfg, c, tokens, measured, delta);
    Unit(error);
    Unit(integral);
    Unit(Over(error - c.lastError, delta));
    Unit(base);
    if smoothed > 0.01 {
      var drain := DrainRate(c, tokens, delta);
      var feed := Times(drain, Over(cfg.target, smoothed));
      ScaledMax(c.lastLevel + Times(c.rate, delta) - tokens, delta);
      ScaledUse(Used(c, tokens, delta), drain, cfg.target, smoothed, delta);
      if base <= feed {
        Monotone(base, feed, smoothed);
        Monotone(Times(base, smoothed), Times(feed, smoothed), delta);
      }
      if feed <= base {
        Monotone(feed, base, smoothed);
        Monotone(Times(feed, smoothed), Times(base, smoothed), delta);
      }
    }
  }

  /** What the gains add up to, with `d` for the derivative term. */
  function PidSum(cfg: Config, c': Control, d: real): real {
    Times(cfg.kp, c'.lastError) + Times(cfg.ki, c'.integral) + d
  }

  /** The derivative term over the delta is the gain times the change of the error. */
  predicate IsDerivative(cfg: Config, c: Control, c': Control, delta: real, d: real) {
    Times(d, delta) == Times(cfg.kd, c'.lastError - c.lastError)
  }

  lemma DerivativeIs(kd: real, change: real, delta: real, d: real)
    requires delta > 0.0 && Times(d, delta) == Times(kd, change)
    ensures d == Times(kd, Over(change, delta))
  {
    var d' := Times(kd, Over(change, delta));
    Associates(kd, Over(change, delta), delta);
    Quotient(change, delta);
    Cancel(d, delta, Times(kd, change));
    Cancel(d', delta, Times(kd, change));
  }

  /** The gains take no part in the error, the integral and the filter. Starting from the rate without gains, they add
      the share that `kp` times the new error, `ki` times the new integral and the derivative term sum up to, at most a
      half either way. */
  lemma {:induction false} PidLaw(cfg: Config, c: Control, tokens: real, measured: real, delta: real, d: real)
    requires ValidConfig(cfg) && delta > 0.0 && c.rate <= cfg.rateMax
    requires IsDerivative(cfg, c, Decide(cfg, c, tokens, measured, delta), delta, d)
    ensures var c', plain := Decide(cfg, c, tokens, measured, delta),
                             Decide(WithoutGains(cfg), c, tokens, measured, delta);
            && c' == plain.(rate := c'.rate) && cfg.rateMin <= plain.rate <= cfg.rateMax
            && c'.rate == Clamp(plain.rate + Times(plain.rate, Clamp(PidSum(cfg, c', d), -0.5, 0.5)),
                                cfg.rateMin, cfg.rateMax)
  {
    var smoothed, error, integral, base, correction := Parts(cfg, c, tokens, measured, delta);
    var _, _, _, base0, correction0 := Parts(WithoutGains(cfg), c, tokens, measured, delta);
    Unit(error);
    Unit(integral);
    Unit(Over(error - c.lastError, delta));
    Unit(base);
    DerivativeIs(cfg.kd, error - c.lastError, delta, d);
    Distributes(1.0, correction, base);
  }

  /** Neither limit of the correction nor one of the rate is met. */
  predicate Unlimited(cfg: Config, c': Control, d: real) {
    -0.5 <= PidSum(cfg, c', d) <= 0.5 && cfg.rateMin < c'.rate < cfg.rateMax
  }

  /** So, away from the limits, a change of gains moves the rate by the share that the changes alone sum up to, and a
      change of one of them shows unless its term is 0. */
  lemma {:induction false} GainsShow(cfg: Config, cfg': Config, c: Control, tokens: real, measured: real, delta: real,
                                     d: real, d': real)
    requires ValidConfig(cfg) && delta > 0.0 && c.rate <= cfg.rateMax
    requires cfg' == cfg.(kp := cfg'.kp, ki := cfg'.ki, kd := cfg'.kd)
    requires IsDerivative(cfg, c, Decide(cfg, c, tokens, measured, delta), delta, d)
    requires IsDerivative(cfg', c, Decide(cfg', c, tokens, measured, delta), delta, d')
    requires Unlimited(cfg, Decide(cfg, c, tokens, measured, delta), d)
    requires Unlimited(cfg', Decide(cfg', c, tokens, measured, delta), d')
    ensures var s, s' := Decide(cfg, c, tokens, measured, delta), Decide(cfg', c, tokens, measured, delta);
            var plain := Decide(WithoutGains(cfg), c, tokens, measured, delta).rate;
            var moved := Times(cfg'.kp - cfg.kp, s.lastError) + Times(cfg'.ki - cfg.ki, s.integral) + (d' - d);
            && s'.rate - s.rate == Times(plain, moved)
            && (s'.rate == s.rate <==> moved == 0.0)
    ensures Times(d' - d, delta) ==
            Times(cfg'.kd - cfg.kd, Decide(cfg, c, tokens, measured, delta).lastError - c.lastError)
  {
    var s, s' := Decide(cfg, c, tokens, measured, delta), Decide(cfg', c, tokens, measured, delta);
    var plain := Decide(WithoutGains(cfg), c, tokens, measured, delta).rate;
    PidLaw(cfg, c, tokens, measured, delta, d);
    PidLaw(cfg', c, tokens, measured, delta, d');
    assert WithoutGains(cfg') == WithoutGains(cfg);
    Distributes(cfg'.kp, cfg.kp, s.lastError);
    Distributes(cfg'.ki, cfg.ki, s.integral);
    Distributes(cfg'.kd, cfg.kd, s.lastError - c.lastError);
    Distributes(d', d, delta);
    var moved := PidSum(cfg', s', d') - PidSum(cfg, s, d);
    Distributes(PidSum(cfg', s', d'), PidSum(cfg, s, d), plain);
    NonZero(plain, moved);
  }

  lemma NonZero(a: real, b: real)
    requires a > 0.0
    ensures Times(a, b) == 0.0 <==> b == 0.0
  {
    Unit(a);
    Commutes(a, b);
    if b > 0.0 {
      Positive(a, b);
    } else if b < 0.0 {
      Positive(a, -b);
      Distributes(0.0, b, a);
    }
  }

  /** The first update under the default gains and target, 40% used after 0.1 s: what keeps up with the target is 125,
      and the correction adds 0.05 for the error, 0.001 for its integral and 0.05 for its slope. */
  lemma FirstDefaultUpdate(cfg: Config)
    requires ValidConfig(cfg) && cfg.rateMin < 100.0 && 137.625 < cfg.rateMax
    requires cfg.target == 0.5 && cfg.kp == 0.5 && cfg.ki == 0.1 && cfg.kd == 0.05
    ensures Decide(cfg, Initial(cfg).control, Initial(cfg).bucket.tokens, 0.4, 0.1).rate == 137.625
  {
    var c, tokens := Initial(cfg).control, Initial(cfg).bucket.tokens;
    var c', plain := Decide(cfg, c, tokens, 0.4, 0.1), Decide(WithoutGains(cfg), c, tokens, 0.4, 0.1);
    FeedForward(WithoutGains(cfg), c, tokens, 0.4, 0.1);
    assert c.rate == 100.0 && c.lastLevel == tokens && c.integral == 0.0 && c.lastError == 0.0;
    assert c'.lastError == 0.1;
    Unit(cfg.integralDecay);
    assert c'.integral == 0.01;
    PidLaw(cfg, c, tokens, 0.4, 0.1, 0.05);
    assert plain.rate == 125.0;
  }

  // What the controller publishes and reports.

  /** What `clamp` returns is the value between the limits that is nearest. */
  lemma ClampIsNearest(x: real, lo: real, hi: real, y: real)
    requires lo <= y <= hi
    ensures Abs(x - Clamp(x, lo, hi)) <= Abs(x - y)
  {
  }

  /** A controller starts at the rate nearest to 100 that the limits allow. */
  lemma StartsNear100(cfg: Config, rate: real)
    requires ValidConfig(cfg) && cfg.rateMin <= rate <= cfg.rateMax
    ensures cfg.rateMin <= StartRate(cfg) <= cfg.rateMax && Abs(100.0 - StartRate(cfg)) <= Abs(100.0 - rate)
  {
  }

  /** A full bucket lasts the burst window at its rate, as nearly as the limits allow. */
  lemma CapacityIsBurst(cfg: Config, rate: real, capacity: real)
    requires ValidConfig(cfg) && cfg.capacityMin <= capacity <= cfg.capacityMax
    ensures var burst := Times(rate, cfg.burstWindow);
            && cfg.capacityMin <= Capacity(cfg, rate) <= cfg.capacityMax
            && Abs(burst - Capacity(cfg, rate)) <= Abs(burst - capacity)
  {
    ClampIsNearest(Times(rate, cfg.burstWindow), cfg.capacityMin, cfg.capacityMax, capacity);
  }

  /** A report says what the update has left in the controller and the bucket, and a drain that over the delta is what
      launches used. */
  lemma {:induction false} ReportIsTrue(cfg: Config, s: System, utilization: real, delta: real)
    requires ValidConfig(cfg) && delta > 0.0
    ensures var r, s' := UpdateReport(cfg, s, utilization, delta), Updated(cfg, s, utilization, delta);
            && (r.Ok? <==> s.bucket.active)
            && (r.Ok? ==>
                  && r.value.target == cfg.target && Some(r.value.smoothed) == s'.control.smoothed
                  && r.value.rate == s'.control.rate == s'.bucket.refillRate
                  && r.value.capacity == s'.bucket.capacity
                  && Times(r.value.drainRate, delta) == Used(s.control, s.bucket.tokens, delta))
  {
    ScaledMax(s.control.lastLevel + Times(s.control.rate, delta) - s.bucket.tokens, delta);
  }

  /** The capacity grows with the rate. */
  lemma CapacityGrows(cfg: Config, rate: real, rate': real)
    requires ValidConfig(cfg) && rate <= rate'
    ensures Capacity(cfg, rate) <= Capacity(cfg, rate')
  {
    Monotone(rate, rate', cfg.burstWindow);
  }
}
