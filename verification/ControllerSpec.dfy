/** The rate controller of crates/erl/src/hypervisor.rs as functions on its state and the bucket it drives. */
module ControllerSpec {
  import opened Wrappers
  import opened RealMath

  datatype Config = Config(
    target: real, rateMin: real, rateMax: real, kp: real, ki: real, kd: real, filterAlpha: real,
    burstWindow: real, capacityMin: real, capacityMax: real, minDeltaTime: real, integralDecay: real)

  /** What `DeviceController::new` checks. */
  predicate Checked(cfg: Config) {
    && 0.0 <= cfg.target <= 1.0
    && !(cfg.rateMin <= 0.0 || cfg.rateMax <= cfg.rateMin)
    && 0.0 <= cfg.filterAlpha <= 1.0
    && 0.0 <= cfg.integralDecay <= 1.0
  }

  /** What it takes for granted: `clamp` panics unless the capacities are ordered, and a delta is divided by. */
  predicate Presumed(cfg: Config) {
    && 0.0 <= cfg.capacityMin <= cfg.capacityMax
    && cfg.burstWindow >= 0.0
    && cfg.minDeltaTime > 0.0
  }

  predicate ValidConfig(cfg: Config) {
    Checked(cfg) && Presumed(cfg)
  }

  datatype Control = Control(
    integral: real, lastError: real, smoothed: Option<real>, rate: real, lastLevel: real, lastTime: Option<real>)

  /** The shared token bucket; every access fails while its device is inactive. */
  datatype Bucket = Bucket(active: bool, tokens: real, capacity: real, refillRate: real, lastUpdate: real)

  datatype Report = Report(target: real, smoothed: real, rate: real, capacity: real, drainRate: real)

  datatype RateLimitError = StorageFailure | InvalidConfiguration

  datatype System = System(control: Control, bucket: Bucket)

  function Capacity(cfg: Config, rate: real): real
    requires cfg.capacityMin <= cfg.capacityMax
  {
    Clamp(Times(rate, cfg.burstWindow), cfg.capacityMin, cfg.capacityMax)
  }

  function StartRate(cfg: Config): real {
    Max(Min(100.0, cfg.rateMax), cfg.rateMin)
  }

  function Initial(cfg: Config): System
    requires ValidConfig(cfg)
  {
    var rate := StartRate(cfg);
    var capacity := Capacity(cfg, rate);
    System(Control(0.0, 0.0, None, rate, capacity, None), Bucket(true, capacity, capacity, rate, 0.0))
  }

  function Smoothed(cfg: Config, previous: Option<real>, measured: real): real {
    match previous
    case Some(prev) => Times(cfg.filterAlpha, measured) + Times(1.0 - cfg.filterAlpha, prev)
    case None => measured
  }

  function DrainRate(c: Control, tokens: real, delta: real): real
    requires delta > 0.0
  {
    Max(Over(c.lastLevel + Times(c.rate, delta) - tokens, delta), 0.0)
  }

  function BaseRate(cfg: Config, rate: real, smoothed: real, drainRate: real): real
    requires cfg.rateMin <= cfg.rateMax
  {
    if smoothed > 0.01 then Clamp(Times(drainRate, Over(cfg.target, smoothed)), cfg.rateMin, cfg.rateMax)
    else Max(rate, cfg.rateMin)
  }

  function Integral(cfg: Config, integral: real, error: real, delta: real): real {
    Clamp(Times(integral, cfg.integralDecay) + Times(error, delta), -1.0, 1.0)
  }

  function Correction(cfg: Config, error: real, lastError: real, integral: real, delta: real): real
    requires delta > 0.0
  {
    Clamp(Times(cfg.kp, error) + Times(cfg.ki, integral) + Times(cfg.kd, Over(error - lastError, delta)), -0.5, 0.5)
  }

  /** Everything an update decides before it touches the bucket, from the token level it reads. */
  function Decide(cfg: Config, c: Control, tokens: real, measured: real, delta: real): Control
    requires ValidConfig(cfg) && delta > 0.0
  {
    var smoothed := Smoothed(cfg, c.smoothed, measured);
    var error := cfg.target - smoothed;
    var integral := Integral(cfg, c.integral, error, delta);
    var base := BaseRate(cfg, c.rate, smoothed, DrainRate(c, tokens, delta));
    var correction := Correction(cfg, error, c.lastError, integral, delta);
    var rate := Clamp(Times(base, 1.0 + correction), cfg.rateMin, cfg.rateMax);
    Control(integral, error, Some(smoothed), rate, tokens, c.lastTime)
  }

  /** The level `fetch_add_erl_tokens` leaves: capped at the capacity it read. */
  function Raised(tokens: real, amount: real, capacity: real): real {
    Max(Min(tokens + amount, capacity), 0.0)
  }

  /** The level `fetch_sub_erl_tokens` leaves: unchanged unless it covers the cost. */
  function Lowered(tokens: real, cost: real): real {
    if tokens < cost then tokens else Max(tokens - cost, 0.0)
  }

  function Refilled(b: Bucket, amount: real): Bucket {
    b.(tokens := Raised(b.tokens, amount, b.capacity))
  }

  function Consumed(b: Bucket, cost: real): Bucket {
    b.(tokens := Lowered(b.tokens, cost))
  }

  function Published(b: Bucket, rate: real, capacity: real): Bucket {
    b.(refillRate := rate, capacity := capacity)
  }

  function Clamped(b: Bucket, capacity: real): Bucket {
    if b.tokens > capacity then b.(tokens := capacity) else b
  }

  /** The bucket after an update that chose `rate`: refill up to the old capacity, publish, clamp to the new one. */
  function Driven(cfg: Config, b: Bucket, rate: real, delta: real): Bucket
    requires ValidConfig(cfg)
  {
    Clamped(Published(Refilled(b, Times(rate, delta)), rate, Capacity(cfg, rate)), Capacity(cfg, rate))
  }

  function Updated(cfg: Config, s: System, utilization: real, delta: real): System
    requires ValidConfig(cfg) && delta > 0.0
  {
    var measured := Clamp(utilization, 0.0, 1.0);
    if !s.bucket.active then
      s.(control := s.control.(smoothed := Some(Smoothed(cfg, s.control.smoothed, measured))))
    else
      var control := Decide(cfg, s.control, s.bucket.tokens, measured, delta);
      System(control, Driven(cfg, s.bucket, control.rate, delta))
  }

  function UpdateReport(cfg: Config, s: System, utilization: real, delta: real): Result<Report, RateLimitError>
    requires ValidConfig(cfg) && delta > 0.0
  {
    if !s.bucket.active then Err(StorageFailure)
    else
      var c := Updated(cfg, s, utilization, delta).control;
      Ok(Report(cfg.target, c.smoothed.UnwrapOr(0.0), c.rate, Capacity(cfg, c.rate),
                DrainRate(s.control, s.bucket.tokens, delta)))
  }

  function StateReport(cfg: Config, c: Control): Report
    requires ValidConfig(cfg)
  {
    Report(cfg.target, c.smoothed.UnwrapOr(0.0), c.rate, Capacity(cfg, c.rate), 0.0)
  }

  function Seconds(micros: nat): real {
    micros as real / 1000000.0
  }

  /** The delta a timestamp stands for, or None when it comes too soon, is stale or lies in the past. */
  function DeltaOf(cfg: Config, lastTime: Option<real>, micros: nat): (delta: Option<real>)
    ensures delta.Some? ==> delta.value >= cfg.minDeltaTime
  {
    match lastTime
    case None => Some(cfg.minDeltaTime)
    case Some(prev) => if Seconds(micros) - prev < cfg.minDeltaTime then None else Some(Seconds(micros) - prev)
  }
}
