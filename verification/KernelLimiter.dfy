/** The admission decision of crates/erl/src/limiter.rs and the retry loop around it. */
module KernelLimiters {
  import opened Wrappers
  import opened RealMath
  import opened ControllerSpec
  import opened ControllerClock
  import opened ControllerRuns
  import opened TokenBuckets
  import opened DeviceControllers
  import opened KernelCosts

  class KernelLimiter {
    const bucket: TokenBucket
    const cfg: KernelLimiterConfig
    const exp: Decay

    constructor (bucket: TokenBucket, cfg: KernelLimiterConfig, exp: Decay)
      ensures this.bucket == bucket && this.cfg == cfg && this.exp == exp
    {
      this.bucket, this.cfg, this.exp := bucket, cfg, exp;
    }

    /** Admitted exactly when the bucket held the launch's cost, which is then gone; denied leaves the bucket as it
        was. */
    method TryAcquireAt(grids: U32, blocks: U32) returns (r: Result<bool, RateLimitError>)
      modifies bucket`tokens
      ensures bucket.active ==> r == Ok(old(bucket.tokens) >= EstimateKernelCost(cfg, exp, grids, blocks))
      ensures !bucket.active ==> r == Err(StorageFailure)
      ensures bucket.tokens ==
              old(bucket.tokens) - (if r == Ok(true) then EstimateKernelCost(cfg, exp, grids, blocks) else 0.0)
      ensures bucket.active ==>
                bucket.Value() == Consumed(old(bucket.Value()), EstimateKernelCost(cfg, exp, grids, blocks))
    {
      var cost := EstimateKernelCost(cfg, exp, grids, blocks);
      var tokensBefore :- bucket.FetchSubTokens(cost);
      r := Ok(tokensBefore >= cost);
    }
  }

  // The retry loop.

  /** What the hypervisor does during the first `n` sleeps. */
  function Elapsed(sleeps: nat -> seq<Event>, n: nat): seq<Event> {
    if n == 0 then [] else Elapsed(sleeps, n - 1) + sleeps(n - 1)
  }

  predicate OnlyUpdates(events: seq<Event>) {
    forall k :: 0 <= k < |events| ==> events[k].Update? || events[k].UpdateAt?
  }

  /** Updates and other launches, while the device stays as active as it is. */
  predicate NoOutage(events: seq<Event>) {
    forall k :: 0 <= k < |events| ==> !events[k].SetActive?
  }

  lemma {:induction false} ElapsedOnlyUpdates(sleeps: nat -> seq<Event>, n: nat)
    requires forall k: nat :: OnlyUpdates(sleeps(k))
    ensures OnlyUpdates(Elapsed(sleeps, n))
  {
    if n > 0 {
      ElapsedOnlyUpdates(sleeps, n - 1);
    }
  }

  /** The controller and the bucket after `n` sleeps without a launch. */
  function Waited(cfg: Config, start: Run, sleeps: nat -> seq<Event>, n: nat): Run
    requires ValidConfig(cfg)
  {
    Exec(cfg, start, Elapsed(sleeps, n))
  }

  lemma ExecSnoc(cfg: Config, start: Run, earlier: seq<Event>, events: seq<Event>, i: nat)
    requires ValidConfig(cfg) && i < |events|
    ensures Exec(cfg, start, earlier + events[..i + 1]).s ==
            Step(cfg, Exec(cfg, start, earlier + events[..i]).s, events[i])
  {
    assert (earlier + events[..i + 1])[..|earlier| + i] == earlier + events[..i];
  }

  /** The hypervisor's updates, and the launches of others, while a launch sleeps for the `n`-th time. */
  method Sleep(controller: DeviceController, sleeps: nat -> seq<Event>, n: nat, ghost start: Run)
    requires controller.Valid() && NoOutage(sleeps(n))
    requires controller.Value() == Waited(controller.cfg, start, sleeps, n).s
    modifies controller, controller.bucket
    ensures controller.Value() == Waited(controller.cfg, start, sleeps, n + 1).s
    ensures controller.bucket.active == old(controller.bucket.active)
  {
    var events := sleeps(n);
    ghost var earlier := Elapsed(sleeps, n);
    assert earlier + events[..0] == earlier;
    for i := 0 to |events|
      invariant controller.Value() == Exec(controller.cfg, start, earlier + events[..i]).s
      invariant controller.bucket.active == old(controller.bucket.active)
    {
      ExecSnoc(controller.cfg, start, earlier, events, i);
      Perform(controller, events[i]);
    }
    assert events[..|events|] == events;
  }

  method Perform(controller: DeviceController, e: Event)
    requires controller.Valid() && !e.SetActive?
    modifies controller, controller.bucket
    ensures controller.Value() == Step(controller.cfg, old(controller.Value()), e)
    ensures controller.bucket.active == old(controller.bucket.active)
  {
    match e
    case Update(utilization, delta) => var _ := controller.Update(utilization, delta);
    case UpdateAt(utilization, micros) => var _ := controller.UpdateWithTimestamp(utilization, micros);
    case Launch(cost) => var _ := controller.bucket.FetchSubTokens(cost);
  }

  /** By then enough updates got through to fill the bucket to this cost. */
  predicate EnoughUpdates(cfg: Config, start: Run, sleeps: nat -> seq<Event>, n: nat, cost: real)
    requires ValidConfig(cfg) && cost >= 0.0
  {
    |Waited(cfg, start, sleeps, n).h.refills| >= |start.h.refills| + UpdatesNeeded(cfg, cost)
  }

  /** Or by then enough time has passed on the hypervisor's clock. */
  ghost predicate EnoughTime(cfg: Config, start: Run, sleeps: nat -> seq<Event>, n: nat, cost: real) {
    var events := Elapsed(sleeps, n);
    exists since: real, k: nat, t: real ::
      && k < |events| && Since(start, events, since) && Shows(events[k], t)
      && cost <= Times(cfg.rateMin, t - cfg.minDeltaTime - since)
  }

  lemma AdmittedByDeadline(cfg: Config, start: Run, sleeps: nat -> seq<Event>, deadline: nat, cost: real)
    requires ValidConfig(cfg) && InRange(cfg, start.s) && 0.0 <= cost <= cfg.capacityMin
    requires forall k: nat :: OnlyUpdates(sleeps(k))
    requires EnoughUpdates(cfg, start, sleeps, deadline, cost) || EnoughTime(cfg, start, sleeps, deadline, cost)
    ensures Waited(cfg, start, sleeps, deadline).s.bucket.tokens >= cost
  {
    var events := Elapsed(sleeps, deadline);
    if EnoughUpdates(cfg, start, sleeps, deadline, cost) {
      ElapsedOnlyUpdates(sleeps, deadline);
      BoundedWait(cfg, start, events, cost);
    } else {
      var since: real, k: nat, t: real :|
        && k < |events| && Since(start, events, since) && Shows(events[k], t)
        && cost <= Times(cfg.rateMin, t - cfg.minDeltaTime - since);
      WaitByTheClock(cfg, start, events, since, k, t, cost);
    }
  }

  /** One try: `try_erl_admission_control`. */
  method Attempt(limiter: KernelLimiter, controller: DeviceController, grids: U32, blocks: U32, ghost cost: real)
    returns (r: Result<bool, RateLimitError>)
    requires limiter.bucket == controller.bucket
    requires cost == EstimateKernelCost(limiter.cfg, limiter.exp, grids, blocks)
    modifies controller.bucket
    ensures r == if controller.bucket.active then Ok(old(controller.bucket.tokens) >= cost) else Err(StorageFailure)
    ensures controller.Value() == old(controller.Value()).(bucket := controller.bucket.Value())
    ensures controller.bucket.Value() ==
            if r == Ok(true) then Consumed(old(controller.bucket.Value()), cost) else old(controller.bucket.Value())
  {
    r := limiter.TryAcquireAt(grids, blocks);
  }

  const HEALTH_CHECK_INTERVAL: nat := 10

  /** `waits` is how often the launch had slept when the health check failed. */
  datatype LaunchError = AdmissionFailed(error: RateLimitError) | DeviceNotHealthy(waits: nat)

  /** No health check that falls due by the `n`-th sleep fails. */
  predicate HealthyUntil(healthy: nat -> bool, n: nat) {
    forall k: nat :: 0 < k <= n && k % HEALTH_CHECK_INTERVAL == 0 ==> healthy(k)
  }

  /** The bucket has been short of the cost after each of the first `n` waits. */
  predicate ShortUntil(cfg: Config, start: Run, sleeps: nat -> seq<Event>, cost: real, n: nat)
    requires ValidConfig(cfg)
  {
    forall k :: 0 <= k < n ==> Waited(cfg, start, sleeps, k).s.bucket.tokens < cost
  }

  datatype Round = Admitted | Again | Stop(error: LaunchError)

  /** One turn of the loop: a try and, unless it ends the loop, a sleep and the health check when it is due. */
  method TryThenSleep(limiter: KernelLimiter, controller: DeviceController, grids: U32, blocks: U32,
                      sleeps: nat -> seq<Event>, healthy: nat -> bool, n: nat, ghost start: Run, ghost cost: real)
    returns (r: Round)
    requires controller.Valid() && limiter.bucket == controller.bucket && NoOutage(sleeps(n))
    requires cost == EstimateKernelCost(limiter.cfg, limiter.exp, grids, blocks)
    requires controller.Value() == Waited(controller.cfg, start, sleeps, n).s
    modifies controller, controller.bucket
    ensures controller.bucket.active == old(controller.bucket.active)
    ensures r == if !controller.bucket.active then Stop(AdmissionFailed(StorageFailure))
                 else if old(controller.bucket.tokens) >= cost then Admitted
                 else if (n + 1) % HEALTH_CHECK_INTERVAL == 0 && !healthy(n + 1) then Stop(DeviceNotHealthy(n + 1))
                 else Again
    ensures !controller.bucket.active ==> controller.Value() == old(controller.Value())
    ensures r.Admitted? ==>
              controller.Value() == old(controller.Value()).(bucket := Consumed(old(controller.bucket.Value()), cost))
    ensures r.Again? || (r.Stop? && r.error.DeviceNotHealthy?) ==>
              controller.Value() == Waited(controller.cfg, start, sleeps, n + 1).s
  {
    var admitted := Attempt(limiter, controller, grids, blocks, cost);
    if admitted.Err? {
      return Stop(AdmissionFailed(admitted.error));
    }
    if admitted.value {
      return Admitted;
    }
    Sleep(controller, sleeps, n, start);
    if (n + 1) % HEALTH_CHECK_INTERVAL == 0 && !healthy(n + 1) {
      return Stop(DeviceNotHealthy(n + 1));
    }
    return Again;
  }

  /** Tries, sleeps, tries again, whatever others launch meanwhile. It ends by the first sleep after which the bucket
      holds the cost, which is then taken, or at a health check that fails. */
  method WaitAndRetry(limiter: KernelLimiter, controller: DeviceController, grids: U32, blocks: U32,
                      sleeps: nat -> seq<Event>, healthy: nat -> bool,
                      ghost deadline: nat, ghost start: Run, ghost cost: real)
    returns (r: Result<nat, LaunchError>)
    requires controller.Valid() && start.s == controller.Value() && limiter.bucket == controller.bucket
    requires cost == EstimateKernelCost(limiter.cfg, limiter.exp, grids, blocks)
    requires forall k: nat :: NoOutage(sleeps(k))
    requires Waited(controller.cfg, start, sleeps, deadline).s.bucket.tokens >= cost
    modifies controller, controller.bucket
    ensures !old(controller.bucket.active) ==>
              r == Err(AdmissionFailed(StorageFailure)) && controller.Value() == old(controller.Value())
    ensures old(controller.bucket.active) && HealthyUntil(healthy, deadline) ==> r.Ok?
    ensures r.Ok? ==>
              var waited := Waited(controller.cfg, start, sleeps, r.value).s;
              && r.value <= deadline && waited.bucket.tokens >= cost
              && controller.Value() == waited.(bucket := Consumed(waited.bucket, cost))
              && ShortUntil(controller.cfg, start, sleeps, cost, r.value)
    ensures r.Err? && r.error.DeviceNotHealthy? ==>
              var n := r.error.waits;
              && 0 < n <= deadline && n % 10 == 0 && !healthy(n)
              && controller.Value() == Waited(controller.cfg, start, sleeps, n).s
              && ShortUntil(controller.cfg, start, sleeps, cost, n)
  {
    var waitTimes := 0;
    while true
      invariant waitTimes <= deadline
      invariant controller.Value() == Waited(controller.cfg, start, sleeps, waitTimes).s
      invariant controller.bucket.active == old(controller.bucket.active)
      invariant waitTimes > 0 ==> controller.bucket.active
      invariant ShortUntil(controller.cfg, start, sleeps, cost, waitTimes)
      decreases deadline - waitTimes
    {
      var round := TryThenSleep(limiter, controller, grids, blocks, sleeps, healthy, waitTimes, start, cost);
      match round {
        case Admitted => return Ok(waitTimes);
        case Stop(error) => return Err(error);
        case Again => waitTimes := waitTimes + 1;
      }
    }
  }

  /** With no competing consumer, a launch that costs no more than the least capacity is admitted by the sleep in which
      enough updates got through, or enough time has passed, unless a health check fails before. */
  method RateLimiterV2(limiter: KernelLimiter, controller: DeviceController, grids: U32, blocks: U32,
                       sleeps: nat -> seq<Event>, healthy: nat -> bool,
                       ghost deadline: nat, ghost start: Run, ghost cost: real)
    returns (r: Result<nat, LaunchError>)
    requires controller.Valid() && start.s == controller.Value() && limiter.bucket == controller.bucket
    requires cost == EstimateKernelCost(limiter.cfg, limiter.exp, grids, blocks)
    requires InRange(controller.cfg, start.s) && 0.0 <= cost <= controller.cfg.capacityMin
    requires forall k: nat :: OnlyUpdates(sleeps(k))
    requires || EnoughUpdates(controller.cfg, start, sleeps, deadline, cost)
             || EnoughTime(controller.cfg, start, sleeps, deadline, cost)
    modifies controller, controller.bucket
    ensures old(controller.bucket.active) && HealthyUntil(healthy, deadline) ==> r.Ok?
    ensures r.Ok? ==>
              && r.value <= deadline
              && var waited := Waited(controller.cfg, start, sleeps, r.value).s;
                 controller.Value() == waited.(bucket := waited.bucket.(tokens := waited.bucket.tokens - cost))
    ensures !old(controller.bucket.active) ==>
              r == Err(AdmissionFailed(StorageFailure)) && controller.Value() == old(controller.Value())
  {
    AdmittedByDeadline(controller.cfg, start, sleeps, deadline, cost);
    r := WaitAndRetry(limiter, controller, grids, blocks, sleeps, healthy, deadline, start, cost);
  }

  /** A launch that costs more than the greatest capacity is never admitted, however long it waits. */
  lemma TooDearIsNeverAdmitted(cfg: Config, events: seq<Event>, cost: real)
    requires ValidConfig(cfg) && Legal(events) && cost > cfg.capacityMax
    ensures Exec(cfg, Start(cfg), events).s.bucket.tokens < cost
  {
    RunInRange(cfg, events);
  }
}
