/** The rate controller of crates/erl/src/hypervisor.rs, whose calls do what ControllerSpec says and keep what
    ControllerRuns proves. */
module DeviceControllers {
  import opened Wrappers
  import opened RealMath
  import opened ControllerSpec
  import opened ControllerClock
  import opened ControllerRuns
  import opened TokenBuckets

  /** `DeviceController::new`: the starting rate and a full bucket, or an error with nothing written. */
  method New(bucket: TokenBucket, cfg: Config) returns (r: Result<DeviceController, RateLimitError>)
    requires Presumed(cfg)
    modifies bucket
    ensures r.Ok? <==> Checked(cfg) && old(bucket.active)
    ensures r.Err? ==> r.error == InvalidConfiguration && bucket.Value() == old(bucket.Value())
    ensures r.Ok? ==>
              && r.value.Valid() && r.value.cfg == cfg && r.value.bucket == bucket && fresh(r.value)
              && r.value.Value() == Initial(cfg).(bucket := Initial(cfg).bucket.(lastUpdate := old(bucket.lastUpdate)))
              && InRange(cfg, r.value.Value())
  {
    if !(0.0 <= cfg.target <= 1.0) {
      return Err(InvalidConfiguration);
    }
    if cfg.rateMin <= 0.0 || cfg.rateMax <= cfg.rateMin {
      return Err(InvalidConfiguration);
    }
    if !(0.0 <= cfg.filterAlpha <= 1.0) {
      return Err(InvalidConfiguration);
    }
    if !(0.0 <= cfg.integralDecay <= 1.0) {
      return Err(InvalidConfiguration);
    }
    var startRate := Max(Min(100.0, cfg.rateMax), cfg.rateMin);
    var initialCapacity := Clamp(Times(startRate, cfg.burstWindow), cfg.capacityMin, cfg.capacityMax);
    var _ :- bucket.WriteCapacity(initialCapacity);
    // The device is active, so the accesses that follow succeed.
    var _ := bucket.WriteRefillRate(startRate);
    var state := bucket.ReadTokenState();
    var _ := bucket.WriteTokenState(state.value.(tokens := initialCapacity));
    var controller := new DeviceController(bucket, cfg, startRate, initialCapacity);
    InitialInRange(cfg);
    r := Ok(controller);
  }

  class DeviceController {
    const bucket: TokenBucket
    const cfg: Config
    var integral: real
    var lastError: real
    var smoothedUtil: Option<real>
    var currentRate: real
    var lastTokenLevel: real
    var lastTimestamp: Option<real>

    constructor (bucket: TokenBucket, cfg: Config, startRate: real, initialCapacity: real)
      requires ValidConfig(cfg)
      ensures Valid() && this.bucket == bucket && this.cfg == cfg
      ensures Control() == ControllerSpec.Control.Control(0.0, 0.0, None, startRate, initialCapacity, None)
    {
      this.bucket, this.cfg := bucket, cfg;
      integral, lastError, smoothedUtil := 0.0, 0.0, None;
      currentRate, lastTokenLevel, lastTimestamp := startRate, initialCapacity, None;
    }

    ghost predicate Valid() {
      ValidConfig(cfg)
    }

    function Control(): ControllerSpec.Control
      reads this
    {
      ControllerSpec.Control.Control(integral, lastError, smoothedUtil, currentRate, lastTokenLevel, lastTimestamp)
    }

    function Value(): System
      reads this, bucket
    {
      System(Control(), bucket.Value())
    }

    method State() returns (report: Report)
      requires Valid()
      ensures report == StateReport(cfg, Control())
    {
      report := Report(cfg.target, smoothedUtil.UnwrapOr(0.0), currentRate,
                       Clamp(Times(currentRate, cfg.burstWindow), cfg.capacityMin, cfg.capacityMax), 0.0);
    }

    method SmoothUtilization(measured: real) returns (smoothed: real)
      requires Valid()
      modifies this`smoothedUtil
      ensures smoothed == Smoothed(cfg, old(smoothedUtil), measured) && smoothedUtil == Some(smoothed)
    {
      var alpha := cfg.filterAlpha;
      match smoothedUtil {
        case Some(prev) => smoothed := Times(alpha, measured) + Times(1.0 - alpha, prev);
        case None => smoothed := measured;
      }
      smoothedUtil := Some(smoothed);
    }

    method EstimateDrainRate(deltaTime: real) returns (r: Result<real, RateLimitError>)
      requires Valid() && deltaTime > 0.0
      modifies this`lastTokenLevel
      ensures r == if bucket.active then Ok(DrainRate(old(Control()), bucket.tokens, deltaTime))
                   else Err(StorageFailure)
      ensures lastTokenLevel == if bucket.active then bucket.tokens else old(lastTokenLevel)
    {
      var state :- bucket.ReadTokenState();
      var expectedTokens := lastTokenLevel + Times(currentRate, deltaTime);
      var drainRate := Max(Over(expectedTokens - state.tokens, deltaTime), 0.0);
      lastTokenLevel := state.tokens;
      r := Ok(drainRate);
    }

    method CalculateBaseRate(smoothedUtil: real, drainRate: real) returns (rate: real)
      requires Valid()
      ensures rate == BaseRate(cfg, currentRate, smoothedUtil, drainRate)
      ensures currentRate <= cfg.rateMax ==> cfg.rateMin <= rate <= cfg.rateMax
    {
      if smoothedUtil > 0.01 {
        var theoretical := Times(drainRate, Over(cfg.target, smoothedUtil));
        rate := Clamp(theoretical, cfg.rateMin, cfg.rateMax);
      } else {
        rate := Max(currentRate, cfg.rateMin);
      }
    }

    method ComputePidCorrection(error: real, deltaTime: real) returns (correction: real)
      requires Valid() && deltaTime > 0.0
      modifies this`integral, this`lastError
      ensures integral == Integral(cfg, old(integral), error, deltaTime) && lastError == error
      ensures correction == Correction(cfg, error, old(lastError), integral, deltaTime)
      ensures exists d :: Times(d, deltaTime) == Times(cfg.kd, lastError - old(lastError)) &&
                          correction == Clamp(Times(cfg.kp, lastError) + Times(cfg.ki, integral) + d, -0.5, 0.5)
      ensures -1.0 <= integral <= 1.0 && -0.5 <= correction <= 0.5
    {
      var p := Times(cfg.kp, error);
      integral := Times(integral, cfg.integralDecay);
      integral := integral + Times(error, deltaTime);
      integral := Clamp(integral, -1.0, 1.0);
      var i := Times(cfg.ki, integral);
      var derivative := Over(error - lastError, deltaTime);
      var d := Times(cfg.kd, derivative);
      Associates(cfg.kd, derivative, deltaTime);
      Quotient(error - lastError, deltaTime);
      lastError := error;
      correction := Clamp(p + i + d, -0.5, 0.5);
    }

    method ClampTokensToCapacity(capacity: real) returns (r: Result<(), RateLimitError>)
      modifies bucket`tokens, bucket`lastUpdate
      ensures r == if bucket.active then Ok(()) else Err(StorageFailure)
      ensures bucket.Value() == if bucket.active then Clamped(old(bucket.Value()), capacity) else old(bucket.Value())
    {
      var state :- bucket.ReadTokenState();
      if state.tokens > capacity {
        var _ := bucket.WriteTokenState(state.(tokens := capacity));
      }
      r := Ok(());
    }

    method UpdateInternal(measuredUtil: real, deltaTime: real) returns (r: Result<Report, RateLimitError>)
      requires Valid() && deltaTime > 0.0
      modifies this, bucket
      ensures Value() == Updated(cfg, old(Value()), measuredUtil, deltaTime)
      ensures r == UpdateReport(cfg, old(Value()), measuredUtil, deltaTime)
    {
      var measured := Clamp(measuredUtil, 0.0, 1.0);
      var smoothed := SmoothUtilization(measured);
      var drainRate :- EstimateDrainRate(deltaTime);
      var baseRate := CalculateBaseRate(smoothed, drainRate);
      var error := cfg.target - smoothed;
      var correction := ComputePidCorrection(error, deltaTime);
      var newRate := Clamp(Times(baseRate, 1.0 + correction), cfg.rateMin, cfg.rateMax);
      currentRate := newRate;
      assert Control() == Decide(cfg, old(Control()), bucket.tokens, measured, deltaTime);
      var newCapacity := Clamp(Times(newRate, cfg.burstWindow), cfg.capacityMin, cfg.capacityMax);
      // The device was active when its level was read, so the accesses that follow succeed.
      var _ := bucket.FetchAddTokens(Times(newRate, deltaTime));
      var _ := bucket.WriteRefillRate(newRate);
      var _ := bucket.WriteCapacity(newCapacity);
      var _ := ClampTokensToCapacity(newCapacity);
      assert bucket.Value() == Driven(cfg, old(bucket.Value()), newRate, deltaTime);
      r := Ok(Report(cfg.target, smoothed, newRate, newCapacity, drainRate));
    }

    method Update(utilization: real, deltaTime: real) returns (r: Result<Report, RateLimitError>)
      requires Valid()
      modifies this, bucket
      ensures Value() == Step(cfg, old(Value()), Event.Update(utilization, deltaTime))
      ensures r == if deltaTime < cfg.minDeltaTime then Ok(StateReport(cfg, old(Control())))
                   else UpdateReport(cfg, old(Value()), utilization, deltaTime)
      ensures bucket.active == old(bucket.active) && (old(InRange(cfg, Value())) ==> InRange(cfg, Value()))
      ensures deltaTime < cfg.minDeltaTime ==> Value() == old(Value())
      ensures !bucket.active ==> bucket.Value() == old(bucket.Value())
      ensures !bucket.active ==>
                Control() == old(Control()).(smoothed := smoothedUtil, lastTime := lastTimestamp)
    {
      StepKeepsRange(cfg, Value(), Event.Update(utilization, deltaTime));
      RejectedChangesNothing(cfg, Value(), Event.Update(utilization, deltaTime));
      if deltaTime < cfg.minDeltaTime {
        var state := State();
        return Ok(state);
      }
      r := UpdateInternal(utilization, deltaTime);
    }

    method UpdateWithTimestamp(utilization: real, timestampMicros: nat) returns (r: Result<Report, RateLimitError>)
      requires Valid()
      modifies this, bucket
      ensures Value() == Step(cfg, old(Value()), UpdateAt(utilization, timestampMicros))
      ensures r == match DeltaOf(cfg, old(lastTimestamp), timestampMicros)
                   case None => Ok(StateReport(cfg, old(Control())))
                   case Some(delta) =>
                     var stamped := Stamped(old(Value()), UpdateAt(utilization, timestampMicros));
                     UpdateReport(cfg, stamped, utilization, delta)
      ensures bucket.active == old(bucket.active) && (old(InRange(cfg, Value())) ==> InRange(cfg, Value()))
      ensures if old(lastTimestamp).None? || InTime(cfg, old(lastTimestamp).value, timestampMicros) then
                lastTimestamp.Some? && 1000000.0 * lastTimestamp.value == timestampMicros as real
              else Value() == old(Value()) && r == Ok(StateReport(cfg, old(Control())))
      ensures !bucket.active ==> bucket.Value() == old(bucket.Value())
      ensures !bucket.active ==>
                Control() == old(Control()).(smoothed := smoothedUtil, lastTime := lastTimestamp)
    {
      StepKeepsRange(cfg, Value(), UpdateAt(utilization, timestampMicros));
      RejectedChangesNothing(cfg, Value(), UpdateAt(utilization, timestampMicros));
      var seconds := Seconds(timestampMicros);
      var delta := cfg.minDeltaTime;
      if lastTimestamp.Some? {
        var rawDelta := seconds - lastTimestamp.value;
        if rawDelta < cfg.minDeltaTime {
          var state := State();
          return Ok(state);
        }
        delta := rawDelta;
      }
      lastTimestamp := Some(seconds);
      r := UpdateInternal(utilization, delta);
    }
  }

  lemma StepKeepsRange(cfg: Config, s: System, e: Event)
    requires ValidConfig(cfg) && (e.Update? || e.UpdateAt?)
    ensures Step(cfg, s, e).bucket.active == s.bucket.active
    ensures InRange(cfg, s) ==> InRange(cfg, Step(cfg, s, e))
  {
    if InRange(cfg, s) {
      StepInRange(cfg, s, e);
    }
  }
}
