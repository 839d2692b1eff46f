# A model of a GPU sharing runtime's rate limiter, shared pid set and lifecycle state

The runtime lets containers share a GPU. Client processes ask a token bucket in shared memory before each kernel launch;
a hypervisor process refills the bucket and steers its rate. This project models the parts of it whose correctness is
hardest to see and proves what they promise, over every run and every interleaving.

* **Elastic rate limiter.** `ControllerSpec` has the controller's arithmetic and the bucket as functions, over reals.
  `TokenBucket`, `DeviceController` and `KernelLimiter` are the imperative code, proved equal to those functions;
  `ControllerRuns` proves what sequences of calls keep: ranges, the filter, anti-windup, time, drain estimates, waiting
  time; `ControllerClock` which timestamps count and how long a launch waits by the clock; `ControllerResponse` what each
  gain contributes to the rate, which way an update moves it and where it rests. `KernelCost` is what a launch is charged. `AtomicBucket` is the concurrent
  system, any number of clients and one controller whose update is a sequence of separate accesses, with its conservation
  law and throughput bound; `ClampRace` is about the tokens its clamp can create. `CasBucket` is the same system with the
  compare-exchange loops of the code; it refines `AtomicBucket`, and each call in it takes effect at one point.
* **Shared pid set.** `Words` and `Bitmap` are the most-significant-bit-first bitmap with its word-skipping search,
  `SlotSet` the slot map over it, `PidRegistry` its use as a set of pids. `ShmMutex` is the cross-process spin lock around
  it with both of its cleanups, as interleaved atomic steps; `ShmMutexProgress` is about calls that finish and locks that
  are freed.
* **Lifecycle.** `KeyedLock` is the reference-counted lock per key. `TaskQueueSpec`, `HttpServerSpec` and `HttpServer` are
  the per-client task queues. `PodStoreSpec`, `PodManagerSpec` and `PodManager` are the pod index and the registration of
  a process with its rollbacks; `PodLifecycle` follows the processes found in a segment to their exits.
* **Core share.** `CoreShare` is the 32-bit feedback arithmetic of the first version of the limiter.

The `...Spec` modules are functions on values; the classes next to them change state in place and are proved to do what
the functions say, and the theorems are about the functions and their runs. State machines are functions `Step` and
`Exec` from lists of actions; an action that is not possible in a state changes nothing, so a theorem about all lists is
a theorem about all interleavings.

## Assumptions

* The controller's constructor does not check `0 <= capacity_min <= capacity_max`, `burst_window >= 0` and
  `min_delta_time > 0`; the model assumes them (`ControllerSpec.Presumed`). A launch's cost is not negative.
* Every atomic operation is one sequentially consistent step.
* No process has the id 0, which the lock word keeps for "free".
* Clocks, utilization readings, task ids, aliveness probes, and whether a segment opens or an undo call succeeds are
  parameters.

## Where the code does less than it seems to promise

* The clamp reads the level and writes it back in two steps. What launches take in between can come back. `UpdateCreates`
  says exactly for which updates, `ShrinkRace` exactly when launches then get more than there was and was requested;
  `ClampRaceExceedsRefill` shows that ordinary configurations are exposed and `FlatCapacityHasNoSlack` that those with one
  capacity are not; `AtomicClampBound` is what an atomic clamp would give.
* `ShmMutex` stores the creator's pid for every locker, so its cleanups can only ask whether the creator lives. Exclusion
  holds as long as it does (`AliveCreatorExcludes`), and can fail as soon as a cleanup hits a held lock.
* `KeyedLockGuard::drop` tests the strong count and removes the entry in two steps. If nobody locks the key in between,
  each key has one guard (`UnseparatedDropIsSafe`); as soon as somebody does, two can follow
  (`InterveningLockBreaksExclusion`), and nothing prevents it (`DropRace`).
* Its documentation says that the entry goes with the last guard. Two tasks that let go of a key at the same time can leave
  the entry behind (`CleansUpIffAlone`, `EntryLeftBehind`), until the key is locked again (`DeadEntryIsReplaced`).
* A history bound of 0 keeps one result (`HistoryBound`).
* `add_pid` on a full set is ignored while the registration still succeeds (`RegistrationReachesSegment`); from then on
  store and segment disagree (`StepKeepsAgreement`). So they do after the configuration of a pod with processes changed,
  and store and hypervisor after processes were restored from a segment.
* A pod whose segment could not be made is not retried (`FailedPodIsNotRetried`).
* The rollback of a failed registration removes a process that was registered before (`FailedRegistrationUndoes`).
* The share arithmetic is not guarded against overflow. `DeltaExact` says exactly for which inputs below 2^31 a debug build
  panics, `ReleasePanics` for which inputs at all a release build does; otherwise that goes on with a share that can be
  wrong (`OverflowingDevice`).
* The share adjustment can be 0 on small devices (`MovesIffLargeEnough`, `StuckNearLimit`).
* `write_refill_rate` and `write_capacity` report an inactive device as an invalid configuration, the other accesses as a
  storage failure; `New` therefore fails with the former.
* On an inactive device an accepted update still moves the filter, and with timestamps the clock, before it fails.

## Where the definitions come from

| definitions | source |
|---|---|
| `ControllerSpec.Checked`, `Initial`, `StartRate`, `Capacity` | `crates/erl/src/hypervisor.rs` 113-172, 209-211 |
| `ControllerSpec.Smoothed`, `DrainRate`, `BaseRate`, `Integral`, `Correction`, `Decide` | the same, 186-207 and 249-312 |
| `ControllerSpec.Lowered`, `Raised`, `Clamped`, `Driven`, `Updated` | the same, 213-246 and 315-322; `crates/utils/src/shared_memory/mod.rs` 347-395 |
| `AtomicBucket.Step`, `CasBucket.CasStep` | both, one access each |
| `KernelCosts.TotalThreads`, `Curve`, `EstimateKernelCost` | `crates/erl/src/limiter.rs` 89-96 |
| `Words.And` to `LeadingMask`, `Bitmaps.Flatten` | `crates/utils/src/shared_memory/bitmap.rs` 24-82 |
| `ShmMutexes.Step` | `crates/utils/src/shared_memory/mutex.rs` 71-150, one access each |
| `KeyedLocks.Step` | `crates/utils/src/keyed_lock.rs` 52-68 and 148-182 |
| `TaskQueueSpec.Enqueued`, `Dequeued`, `Finished`, `HttpServerSpec.ServerStep` | `crates/http-bidir-comm/src/server.rs` 77-129 and 189-257 |
| `PodStoreSpec.PodRegistered` to `ProcessUnregistered` | `crates/hypervisor/src/core/pod/pod_state_store.rs` 62-192 |
| `PodManagerSpec.Registered`, `Exited`, `Ensured` | `crates/hypervisor/src/core/pod/manager.rs` 268-362, 406-513 and 610-655; `crates/hypervisor/src/core/pod/coordinator.rs` 562-650 |
| `CoreShare.Increment`, `Amplified`, `Delta`, `Moved` | `crates/hypervisor/src/core/pod/coordinator.rs` 826-872 |

## Model

| member | source | states |
|---|---|---|
| AtomicBucket.UninterruptedUpdate | crates/erl/src/hypervisor.rs:186-246 | The controller's steps one after the other are exactly the update of the imperative controller, so both models speak of the same code |
| AtomicBucket.UninterruptedLaunch | crates/erl/src/limiter.rs:60-74 | The client's steps one after the other are exactly one try_acquire_at on the bucket |
| AtomicBucket.RunInRange | crates/erl/src/hypervisor.rs:186-322 | In every interleaving of any number of clients with the controller: tokens never negative; at rest at most the published capacity, which is the rate's; during an update at most the larger of old and new capacity; a client about to be told "admitted" has taken its own cost, any other nothing |
| AtomicBucket.RunConserves | crates/erl/src/hypervisor.rs:186-322 | Conservation over every interleaving: what is left, was taken and was discarded equals the initial tokens, the requested refill and what clamps created; what clamps created is at most the slack, that is what was taken between a clamp's read and its write |
| AtomicBucket.ThroughputBound | crates/erl/src/hypervisor.rs:214-223 | Launches are granted at most the initial tokens, the sum of rate times delta, and the slack |
| AtomicBucket.RunBoundsRefill | crates/erl/src/hypervisor.rs:214-216 | The requested refill lies between the extreme rates over the time of the updates |
| AtomicBucket.LongRunRate | crates/erl/src/hypervisor.rs:209-223 | Over any run launches are granted at most a full bucket, the greatest rate times the elapsed time, and the slack |
| AtomicBucket.NoSlack | crates/erl/src/hypervisor.rs:315-322 | If no client takes anything between a clamp's read and its write, the slack is zero |
| AtomicBucket.AtomicClampBound | crates/erl/src/hypervisor.rs:315-322 | With atomic clamps the throughput bound has no slack and nothing is ever created |
| AtomicBucket.RunBoundsCreation | crates/erl/src/hypervisor.rs:315-322 | All that clamps create is at most the greatest capacity for each that wrote |
| AtomicBucket.RunExplainsLevel | crates/erl/src/hypervisor.rs:186-272 | At every moment of every interleaving the level is what the last read saw, plus the refill, less what was discarded and taken, plus what clamps created since |
| AtomicBucket.DrainIdentity | crates/erl/src/hypervisor.rs:260-272 | What the next update estimates as drain, over its delta, in terms of what clients really took, for every interleaving up to it, launches in the middle of earlier updates included |
| AtomicBucket.DrainCoversLaunches | crates/erl/src/hypervisor.rs:260-272 | With atomic clamps and deltas that do not shrink the estimate is never below what clients took |
| ClampRaces.RunFollows | crates/erl/src/hypervisor.rs:209-246 | From a decision to the next, over every schedule: what was created is at most the new capacity and nothing before the clamp writes, and the refill's excess over the old capacity is discarded |
| ClampRaces.ClampCreates | crates/erl/src/hypervisor.rs:315-322 | After a decision some schedule of any number of clients lets the clamp create tokens exactly when there is a client and the new capacity is positive and below the level the undisturbed refill would leave |
| ClampRaces.UpdateCreates | crates/erl/src/hypervisor.rs:186-246 | The same condition read off before the update, from the level, the capacity and the decided rate |
| ClampRaces.ShrinkRace | crates/erl/src/hypervisor.rs:209-223 | After a decision some schedule lets launches take more than the level and the requested refill exactly under a condition on the level, the capacities, the refill and the costs being asked, whatever the clients are in the middle of |
| ClampRaces.FlatCapacityHasNoSlack | crates/erl/src/hypervisor.rs:209-223 | If the limits of the rate stand for the same capacity, every run has zero slack and the bound without it |
| ClampRaces.ClampRaceExceedsRefill | crates/erl/src/hypervisor.rs:113-246 | Under every ordinary configuration and for any number of clients, the very first update can let launches exceed the initial tokens and all requested refill |
| CasBucket.RunLocalsFit | crates/utils/src/shared_memory/mod.rs:347-395 | Over any run, a level in a client's loop covers its cost and the controller's loop holds the published capacity |
| CasBucket.StepRefines | crates/utils/src/shared_memory/mod.rs:347-395 | Each load or compare-exchange is either nothing or the whole atomic operation |
| CasBucket.RunRefines | crates/utils/src/shared_memory/mod.rs:347-395 | Every interleaving of loads and compare-exchanges has the effect of a run of the bucket with atomic fetch_sub and fetch_add |
| CasBucket.CasThroughputBound | crates/utils/src/shared_memory/mod.rs:347-395 | Range, throughput bound and long-run rate hold of the loops |
| CasBucket.CasNoSlack | crates/erl/src/hypervisor.rs:315-322 | If no compare-exchange takes anything between a clamp's read and its write, the loops have no slack |
| CasBucket.CasAtomicClampBound | crates/erl/src/hypervisor.rs:315-322 | Then the throughput bound without slack holds of the loops |
| CasBucket.Linearizes | crates/utils/src/shared_memory/mod.rs:347-369 | Every answered fetch_sub took effect at one step between its call and its answer, where the level it returns was the level and became what subtracting the cost leaves |
| CasBucket.AnsweredByItsPoint | crates/erl/src/limiter.rs:60-74 | try_acquire_at answers true exactly when that one step took the launch's own cost; otherwise the step took nothing |
| CasBucket.FailedSwapMeansProgress | crates/utils/src/shared_memory/mod.rs:359-368 | A compare-exchange that is about to fail: after its load some step completed an access and moved the level |
| CasBucket.FailuresBounded | crates/utils/src/shared_memory/mod.rs:347-369 | Over any run a client's compare-exchanges fail at most as often as a step moves the level |
| CasBucket.AddAloneFinishes | crates/utils/src/shared_memory/mod.rs:374-395 | Without interference the controller's loop is over after its loads and one compare-exchange, with the refill done |
| CasBucket.AddFailuresBounded | crates/utils/src/shared_memory/mod.rs:374-395 | Over any run the controller's compare-exchanges fail at most as often as a step moves the level |
| CasBucket.AloneFinishes | crates/utils/src/shared_memory/mod.rs:347-369 | Without interference the loop is over after one load and one compare-exchange |
| ControllerRuns.RunInRange | crates/erl/src/hypervisor.rs:113-354 | Over every sequence of updates, rejected ones included, launches and outages: rate, filter, integral and last error in range, tokens within the capacity, published rate and capacity equal to the controller's own |
| ControllerRuns.UpdateInRange | crates/erl/src/hypervisor.rs:186-246 | One update keeps those ranges, and its drain estimate is not negative |
| ControllerRuns.RunFilters | crates/erl/src/hypervisor.rs:249-257 | The smoothed utilization is the filter over the clamped measurements of the accepted updates |
| ControllerRuns.FilterBetweenExtremes | crates/erl/src/hypervisor.rs:249-257 | The filter lies between the least and the greatest measurement seen |
| ControllerRuns.FilterConverges | crates/erl/src/hypervisor.rs:249-257 | n equal measurements m leave smoothed - m equal to (1 - alpha)^n times the first distance |
| ControllerRuns.SmoothedBetweenExtremes | crates/erl/src/hypervisor.rs:249-257 | Over any run the smoothed utilization lies between the least and the greatest clamped measurement |
| ControllerRuns.SmoothedConverges | crates/erl/src/hypervisor.rs:249-257 | Over any run whose last n measurements equal m, smoothed - m is (1 - alpha)^n times what it was before them |
| ControllerRuns.RunIntegrates | crates/erl/src/hypervisor.rs:292-303 | The integral is that of the errors and deltas the updates used |
| ControllerRuns.WindupBounded | crates/erl/src/hypervisor.rs:295-303 | The integral stays within 1 and within E * D times the decaying sum |
| ControllerRuns.WindupAttained | crates/erl/src/hypervisor.rs:295-303 | Equal errors and deltas attain that bound as long as it is within 1 |
| ControllerRuns.AntiWindup | crates/erl/src/hypervisor.rs:295-303 | The closed form for any run: the integral is in absolute value at most min(1, E * D * (1 - lambda^n) / (1 - lambda)) |
| ControllerRuns.RunExplainsLevel | crates/erl/src/hypervisor.rs:186-272 | The level between updates in terms of the last read, the refill, the discarded tokens and the launches |
| ControllerRuns.DrainIdentity | crates/erl/src/hypervisor.rs:260-272 | The drain estimate over its delta is what launches took plus what was discarded plus the old rate over the growth of the delta, never less than 0 |
| ControllerRuns.DrainCoversLaunches | crates/erl/src/hypervisor.rs:260-272 | Exactly when the estimate covers what launches took; always when the delta does not shrink |
| ControllerRuns.RunAccountsTime | crates/erl/src/hypervisor.rs:337-354 | Under any timestamps each accepted delta is at least the minimum and they sum to last minus first accepted timestamp plus one minimum delta |
| ControllerRuns.RunRequestsRefill | crates/erl/src/hypervisor.rs:214-216 | The requested refill lies between the extreme rates over the time of the updates that got through |
| ControllerRuns.ActiveDeviceRefills | crates/utils/src/shared_memory/mod.rs:654-667 | On a device that stays active every accepted update gets through |
| ControllerRuns.RefillOverTime | crates/erl/src/hypervisor.rs:337-354 | Both together: requested refill against last minus first accepted timestamp plus one minimum delta |
| ControllerRuns.UpdatesFill | crates/erl/src/hypervisor.rs:186-246 | Without competing launches k updates leave at least min(capacity_min, t0 + k * rate_min * min_delta_time) |
| ControllerRuns.UpdatesNeeded | crates/erl/src/hypervisor.rs:214-223 | A number of updates whose least refill covers a cost |
| ControllerRuns.BoundedWait | crates/cuda-limiter/src/limiter.rs:341-384 | After that many updates any launch with cost up to capacity_min finds its tokens |
| ControllerClock.AcceptedInTime | crates/erl/src/hypervisor.rs:337-354 | A timestamp is accepted exactly when it is the first or at least one minimum delta after the last accepted one; it is then the last one and stands for the time between them |
| ControllerClock.KeepsUp | crates/erl/src/hypervisor.rs:337-354 | Over any run the last accepted timestamp is less than one minimum delta behind every timestamp that came |
| ControllerClock.RefillsCoverTime | crates/erl/src/hypervisor.rs:337-354 | On an active device the updates that got through cover the time up to the last accepted timestamp without gaps |
| ControllerClock.TimeFills | crates/erl/src/hypervisor.rs:214-223 | Without competing launches the level is at least min(capacity_min, t0 + rate_min * the time refilled) |
| ControllerClock.WaitByTheClock | crates/cuda-limiter/src/limiter.rs:341-384 | A launch with cost up to capacity_min finds its tokens once rate_min times the time up to one minimum delta before any timestamp that came makes up for the cost, whichever timestamps were accepted |
| ControllerClock.AcceptedOften | crates/erl/src/hypervisor.rs:337-354 | With no gap between timestamps longer than g, more than elapsed / (minimum delta + g) updates get through |
| ControllerResponse.FollowsTarget | crates/erl/src/hypervisor.rs:186-312 | With non-negative gains: under the target and getting no closer the new rate is at least the one that keeps up with the drain; over it and getting no closer, at most that |
| ControllerResponse.RestsAtTarget | crates/erl/src/hypervisor.rs:186-312 | At the target with no errors left the rate becomes the drain, and the controller rests while launches take just the refill |
| ControllerResponse.FirstUpdate | crates/erl/src/hypervisor.rs:186-312 | On a fresh controller the rate rises exactly under the target and falls exactly over it |
| ControllerResponse.FeedForward | crates/erl/src/hypervisor.rs:278-287 | Without gains, on a device used above 1%: rate times smoothed utilization times delta is what launches used times the target, as far as the rate limits allow; below, the rate stays |
| ControllerResponse.PidLaw | crates/erl/src/hypervisor.rs:292-312 | From the rate without gains the update adds the share kp * new error + ki * new integral + d, at most a half either way, where d * delta is kd times the change of the error; the gains touch nothing but the rate |
| ControllerResponse.GainsShow | crates/erl/src/hypervisor.rs:292-312 | Away from the limits, other gains move the rate by exactly the share their differences sum up to, so a change of one gain shows unless its term is 0 |
| ControllerResponse.FirstDefaultUpdate | crates/erl/src/hypervisor.rs:43-66 | The default gains, 40% used, 0.1 s: the first update sets the rate to 137.625 |
| ControllerResponse.StartsNear100 | crates/erl/src/hypervisor.rs:113-172 | The starting rate is the one nearest to 100 within the limits |
| ControllerResponse.CapacityIsBurst | crates/erl/src/hypervisor.rs:209-211 | The capacity is the one nearest to burst_window at the rate within the limits |
| ControllerResponse.ReportIsTrue | crates/erl/src/hypervisor.rs:239-246 | A report shows the rate and capacity now published, the filter, and a drain that over the delta is what launches used |
| ControllerResponse.CapacityGrows | crates/erl/src/hypervisor.rs:209-211 | The capacity grows with the rate |
| TokenBuckets.TokenBucket.constructor | crates/utils/src/shared_memory/mod.rs:242-253 | The initial bucket of a device entry |
| TokenBuckets.TokenBucket.ReadTokenState | crates/utils/src/shared_memory/erl_adapter.rs:46-59 | The state, or a storage failure on an inactive device |
| TokenBuckets.TokenBucket.WriteTokenState | crates/utils/src/shared_memory/erl_adapter.rs:61-74 | Stores level and timestamp; nothing changes on an inactive device |
| TokenBuckets.TokenBucket.WriteRefillRate | crates/utils/src/shared_memory/erl_adapter.rs:91-103 | Stores the rate; on an inactive device nothing changes and the error is of another kind |
| TokenBuckets.TokenBucket.WriteCapacity | crates/utils/src/shared_memory/erl_adapter.rs:105-117 | Stores the capacity, with the same error |
| TokenBuckets.TokenBucket.FetchSubTokens | crates/utils/src/shared_memory/mod.rs:347-369 | Returns the level before and takes the cost exactly if the level covers it |
| TokenBuckets.TokenBucket.FetchAddTokens | crates/utils/src/shared_memory/mod.rs:374-395 | Returns the level before and adds up to the capacity |
| DeviceControllers.New | crates/erl/src/hypervisor.rs:113-172 | Succeeds exactly for a checked configuration on an active device, then with a full bucket at the starting rate; otherwise an error and nothing written |
| DeviceControllers.DeviceController.constructor | crates/erl/src/hypervisor.rs:161-171 | The controller's initial fields |
| DeviceControllers.DeviceController.State | crates/erl/src/hypervisor.rs:174-183 | The report outside an update |
| DeviceControllers.DeviceController.SmoothUtilization | crates/erl/src/hypervisor.rs:249-257 | Moves and returns the filter |
| DeviceControllers.DeviceController.EstimateDrainRate | crates/erl/src/hypervisor.rs:260-272 | The estimate from the last level, which is then the present one; on an inactive device an error and no change |
| DeviceControllers.DeviceController.CalculateBaseRate | crates/erl/src/hypervisor.rs:278-287 | The base rate, within the rate limits |
| DeviceControllers.DeviceController.ComputePidCorrection | crates/erl/src/hypervisor.rs:292-312 | The correction is kp times the error now remembered, plus ki times the new integral, plus a term that over the delta is kd times the change of the error, cut at a half either way; the integral stays within 1 |
| DeviceControllers.DeviceController.ClampTokensToCapacity | crates/erl/src/hypervisor.rs:315-322 | Cuts the level to the capacity |
| DeviceControllers.DeviceController.UpdateInternal | crates/erl/src/hypervisor.rs:186-246 | The whole new state of controller and bucket and the report, on active and inactive devices, as the functions ControllerRuns reasons about |
| DeviceControllers.DeviceController.Update | crates/erl/src/hypervisor.rs:325-334 | One event of the runs above; a rejected delta returns the report and changes nothing, an inactive device lets only the filter move; the ranges are kept |
| DeviceControllers.DeviceController.UpdateWithTimestamp | crates/erl/src/hypervisor.rs:337-354 | The same for timestamps: the first, and any at least one minimum delta after the last accepted one, is accepted and remembered; any other, stale and backward ones included, returns the report and changes nothing; on an inactive device the clock moves too |
| KernelCosts.CostInRange | crates/erl/src/limiter.rs:89-96 | A launch costs at least the minimum and at most the maximum, if that is no less |
| KernelCosts.CostGrows | crates/erl/src/limiter.rs:89-96 | More threads never cost less |
| KernelCosts.ThreadsDecide | crates/erl/src/limiter.rs:89-96 | The cost depends on the number of threads alone and never falls with it; with a strict exponential function and the maximum above the minimum, one launch costs less than another exactly if it has fewer threads |
| KernelCosts.CostOfProduct | crates/erl/src/limiter.rs:89-96 | Grids and blocks count alike, and all threads as grids of one block cost the same |
| KernelCosts.RemainderDecays | crates/erl/src/limiter.rs:89-96 | A launch of k times curve_scale threads costs the maximum less exp(-k) of the span |
| KernelCosts.RemaindersMultiply | crates/erl/src/limiter.rs:89-96 | With exp(x + y) = exp(x) * exp(y): what g1 + g2 grids leave to the maximum, times the span, is the product of what g1 and g2 leave |
| KernelCosts.MinimumIffFlat | crates/erl/src/limiter.rs:89-96 | With a strict exponential function the minimum is charged exactly if the maximum is no more than it |
| KernelLimiters.KernelLimiter.TryAcquireAt | crates/erl/src/limiter.rs:60-74 | Admitted exactly when the bucket held the cost, which is then gone; denied leaves the bucket alone; inactive is an error |
| KernelLimiters.Attempt | crates/cuda-limiter/src/limiter.rs:410-460 | One try of the retry loop in terms of the cost |
| KernelLimiters.Sleep | crates/cuda-limiter/src/limiter.rs:360-363 | The hypervisor's updates and the launches of others while a launch sleeps, as events of a run |
| KernelLimiters.TryThenSleep | crates/cuda-limiter/src/limiter.rs:341-384 | One turn of the loop: a try, then a sleep and, every tenth time, the health check |
| KernelLimiters.AdmittedByDeadline | crates/cuda-limiter/src/limiter.rs:341-384 | Once enough updates got through, or enough time passed by the clock, the bucket holds the cost |
| KernelLimiters.WaitAndRetry | crates/cuda-limiter/src/limiter.rs:341-384 | Whatever others launch meanwhile, the loop ends by the first sleep after which the bucket holds the cost, takes it then and never before; or at the first health check that fails, with nothing taken; errors end it at once |
| KernelLimiters.RateLimiterV2 | crates/cuda-limiter/src/limiter.rs:306-339 | Without competing consumers a launch that costs no more than capacity_min is admitted by the sleep in which enough updates got through or enough time passed by the clock, if no health check fails until then |
| KernelLimiters.TooDearIsNeverAdmitted | crates/cuda-limiter/src/limiter.rs:341-384 | A launch that costs more than capacity_max is never admitted |
| Words.BitMaskBits | crates/utils/src/shared_memory/bitmap.rs:80-82 | The mask of an offset has exactly its bit, counted from the most significant one |
| Words.MinusOneValue | crates/utils/src/shared_memory/bitmap.rs:52 | The bit-level decrement subtracts one from the number a word stands for |
| Words.LeadingMaskBits | crates/utils/src/shared_memory/bitmap.rs:52 | The mask built with shifts, a decrement and a complement covers exactly the bits before a column |
| Bitmaps.FirstZeroIsLeast | crates/utils/src/shared_memory/bitmap.rs:46-77 | The bit-by-bit search returns exactly the least clear position, and None exactly when there is none |
| Bitmaps.SearchWord | crates/utils/src/shared_memory/bitmap.rs:51-56 | Leading ones of a word with its prefix covered give its first clear bit from a column on |
| Bitmaps.Bitmap.constructor | crates/utils/src/shared_memory/bitmap.rs:17-19 | A new bitmap is clear |
| Bitmaps.Bitmap.Test | crates/utils/src/shared_memory/bitmap.rs:24-29 | Reads the bit of the offset |
| Bitmaps.Bitmap.TestAndSet | crates/utils/src/shared_memory/bitmap.rs:35-41 | Writes that bit and no other, and returns the old one |
| Bitmaps.Bitmap.ScanPartialWord | crates/utils/src/shared_memory/bitmap.rs:48-58 | The masked first word of the search |
| Bitmaps.Bitmap.ScanWords | crates/utils/src/shared_memory/bitmap.rs:60-72 | The word-skipping loop finds the first clear position from a word on |
| Bitmaps.Bitmap.FindNextZero | crates/utils/src/shared_memory/bitmap.rs:46-77 | Equals the bit-by-bit search on [offset, min(end, 64 * N)) |
| SlotSets.EntriesAreSound | crates/utils/src/shared_memory/set.rs:193-205 | Every listed entry is an entry of the map |
| SlotSets.EntriesAreOrdered | crates/utils/src/shared_memory/set.rs:193-205 | Entries are listed in strictly increasing slot order, so once each |
| SlotSets.EntriesAreComplete | crates/utils/src/shared_memory/set.rs:193-205 | Every occupied slot is listed |
| SlotSets.FullWhenCounted | crates/utils/src/shared_memory/set.rs:49-64 | N slots are taken exactly when none below N is free |
| SlotSets.LeastFreeSlot | crates/utils/src/shared_memory/set.rs:49-64 | The first clear bit below N is the least free slot, and there is none exactly when N slots are taken |
| SlotSets.SlotSet.constructor | crates/utils/src/shared_memory/set.rs:19-25 | An empty map of capacity N |
| SlotSets.SlotSet.Contains | crates/utils/src/shared_memory/set.rs:43-45 | Membership of a slot |
| SlotSets.SlotSet.Insert | crates/utils/src/shared_memory/set.rs:49-64 | Takes the least free slot; fails exactly when len = N; len stays the number of set bits below N and no bit above N is ever set |
| SlotSets.SlotSet.Remove | crates/utils/src/shared_memory/set.rs:68-79 | Removes exactly that slot and returns its value, or None |
| SlotSets.SlotSet.Get | crates/utils/src/shared_memory/set.rs:82-89 | Looks the slot up |
| SlotSets.SlotSet.Clear | crates/utils/src/shared_memory/set.rs:102-113 | Empties the map |
| SlotSets.SlotSet.FindIndexOf | crates/utils/src/shared_memory/set.rs:134-144 | The least slot that stores the value, or None exactly when none does |
| SlotSets.SlotSet.InsertIfAbsent | crates/utils/src/shared_memory/set.rs:157-165 | No change when the value is stored, and its first slot; no change when the set is full; else one new slot |
| SlotSets.SlotSet.RemoveValue | crates/utils/src/shared_memory/set.rs:169-175 | Removes the first slot that stores the value, and no other |
| SlotSets.SlotIter.Next | crates/utils/src/shared_memory/set.rs:193-205 | What has been returned so far is always the ordered entry list below the position |
| PidRegistries.LastOperationDecides | crates/utils/src/shared_memory/mod.rs:993-1003 | Over any sequence of additions and removals: the set keeps to its capacity, holds only pids whose last operation added them, and all of those unless an addition found it full |
| PidRegistries.PidRegistry.constructor | crates/utils/src/shared_memory/mod.rs:550 | An empty pid set |
| PidRegistries.PidRegistry.Add | crates/utils/src/shared_memory/mod.rs:993-995 | Union, or no change when full and the pid is new; stored pids stay distinct |
| PidRegistries.PidRegistry.Remove | crates/utils/src/shared_memory/mod.rs:997-999 | Set difference, although only the first match is removed |
| PidRegistries.PidRegistry.GetAll | crates/utils/src/shared_memory/mod.rs:1001-1003 | Lists exactly the set, each pid once |
| ShmMutexes.StepKeepsOneGuard | crates/utils/src/shared_memory/mutex.rs:71-150 | A step in which no cleanup hits a held lock keeps at most one guard, and the lock word is the pid exactly while there is one |
| ShmMutexes.StepKeepsData | crates/utils/src/shared_memory/mutex.rs:108-150 | The data stays what the logged operations give one after the other |
| ShmMutexes.MutualExclusion | crates/utils/src/shared_memory/mutex.rs:71-150 | In every interleaving in which no cleanup hits a held lock: one guard at most, the lock word is the pid exactly then, and the data is what the logged operations give |
| ShmMutexes.AliveMeansNobodyCleans | crates/utils/src/shared_memory/mutex.rs:71-106 | If every probe answers alive nobody gets past it |
| ShmMutexes.AliveCreatorExcludes | crates/utils/src/shared_memory/mutex.rs:42-150 | With every probe answering alive no cleanup hits a held lock, so the lock excludes in every interleaving of lockers and both cleanups |
| ShmMutexes.Linearizes | crates/utils/src/shared_memory/mutex.rs:71-150 | In every undisturbed run each logged pid-set operation belongs to a call and takes effect on the data at one step while its thread works on that call, in the order of the log |
| ShmMutexes.FinishedIsLogged | crates/utils/src/shared_memory/mutex.rs:71-150 | The other direction: a thread that is finished with an operation has logged it, at the step since which it is finished, so no update is lost |
| ShmMutexes.UnlockedIsLogged | crates/utils/src/shared_memory/mutex.rs:135-150 | Every call that has unlocked is in the log of the whole run, from a step before its unlock |
| ShmMutexes.LoggedOnce | crates/utils/src/shared_memory/mutex.rs:108-150 | No call is logged twice |
| ShmMutexes.RealTimeOrder | crates/utils/src/shared_memory/mutex.rs:108-150 | That order respects real time: a call made after another took effect comes later in it |
| ShmMutexes.AnswersLinearize | crates/utils/src/shared_memory/mod.rs:1001-1003 | The answer of every get_all_pids is the set after a prefix of that order, at one step of its call |
| ShmMutexProgress.UninterruptedCall | crates/utils/src/shared_memory/mutex.rs:108-150 | A call made while the lock is free and not interrupted: the thread ends idle, the word 0, the data changed by its operation, which is logged; the answer of get_all_pids is the data and nothing changes |
| ShmMutexProgress.UnlockFrees | crates/utils/src/shared_memory/mutex.rs:135-150 | In every undisturbed run a holder's unlock leaves the word 0 and no guard, so the next spinning thread that tries enters |
| ShmMutexProgress.EveryWaiterCanEnter | crates/utils/src/shared_memory/mutex.rs:108-150 | From every state of an undisturbed run any waiting thread can enter within five steps: those the holder has left, and at most two of its own |
| ShmMutexProgress.StartupFreesOrphan | crates/utils/src/shared_memory/mutex.rs:95-106 | The startup cleanup frees a word whose process the probe finds dead, leaves it if alive, and changes nothing else |
| ShmMutexProgress.SpinnerFreesOrphan | crates/utils/src/shared_memory/mutex.rs:71-93 | A locker that finds the word taken by a dead process frees it and enters |
| ShmMutexes.DisturbanceBreaksExclusion | crates/utils/src/shared_memory/mutex.rs:71-106 | The converse: as soon as a cleanup hits a held lock, a second guard can follow |
| ShmMutexes.DeadCreatorBreaksExclusion | crates/utils/src/shared_memory/mutex.rs:42-113 | A run with a dead creator and two guards |
| KeyedLocks.CountsTasks | crates/utils/src/keyed_lock.rs:52-68 | Different tasks together hold no more references than the strong count |
| KeyedLocks.StepKeepsCoherence | crates/utils/src/keyed_lock.rs:148-182 | Unless a removal hits an entry in use, every task that waits or guards uses the mutex in the map |
| KeyedLocks.OneGuard | crates/utils/src/keyed_lock.rs:148-182 | In every run in which no removal hits an entry in use each key has at most one guard, dead entries being replaced and waiters being cancelled included |
| KeyedLocks.UnlockGrants | crates/utils/src/keyed_lock.rs:52-68 | In such a run a task that waits for a guarded key cannot go on before the unlock, and can right after it |
| KeyedLocks.LiveRemovalBreaksExclusion | crates/utils/src/keyed_lock.rs:52-68 | The converse: after a removal that hits an entry in use, two guards of one key can follow |
| KeyedLocks.UnseparatedDropIsSafe | crates/utils/src/keyed_lock.rs:52-68 | In every run in which nobody locks a key between the count test and the removal of another task's drop of it: all references in use point to the one mutex in the map, and each key has at most one guard |
| KeyedLocks.UnseparatedRemovesNoLiveEntry | crates/utils/src/keyed_lock.rs:52-68 | In such a run no removal hits an entry in use |
| KeyedLocks.InterveningLockBreaksExclusion | crates/utils/src/keyed_lock.rs:52-68 | The converse: as soon as somebody does, two guards of the key can follow |
| KeyedLocks.DropRace | crates/utils/src/keyed_lock.rs:52-68 | As two steps, from any initial state with two tasks, two guards of one key are reachable |
| KeyedLocks.CleansUpIffAlone | crates/utils/src/keyed_lock.rs:52-68 | Even with nothing between test and removal a drop removes the entry exactly when no other task has a reference left |
| KeyedLocks.EntryLeftBehind | crates/utils/src/keyed_lock.rs:90-101 | From any initial state with two tasks, all of them can end idle with the entry still in the map |
| KeyedLocks.DeadEntryIsReplaced | crates/utils/src/keyed_lock.rs:160-182 | The next lock of such a key removes the dead entry and makes a new mutex |
| KeyedLocks.CancelledLetsGo | crates/utils/src/keyed_lock.rs:148-155 | A cancelled wait ends with the task idle, no mutex freed and no entry removed |
| TaskQueueSpec.RunIsBounded | crates/http-bidir-comm/src/server.rs:77-129 | Over any run: pending within its bound, the history exactly the last max_history_size accepted results in order (one when the bound is 0) |
| TaskQueueSpec.RunConserves | crates/http-bidir-comm/src/server.rs:77-129 | Over any run with distinct ids: accepted tasks are those delivered, in order, followed by those pending; a delivered task is processing exactly until its result; one result per task |
| TaskQueueSpec.RunMarks | crates/http-bidir-comm/src/server.rs:89-102 | Over any run a task handed out is the accepted one of its turn, marked as processing for this client, and so is every task being processed |
| TaskQueueSpec.PollsDeliver | crates/http-bidir-comm/src/server.rs:89-102 | As many polls as tasks are pending hand out all of them, oldest first |
| HttpServerSpec.ClientsAreIsolated | crates/http-bidir-comm/src/server.rs:189-257 | A client's queue is what its own events make of an empty queue |
| HttpServerSpec.AcceptedWereEnqueued | crates/http-bidir-comm/src/server.rs:189-206 | A client accepts only tasks enqueued for it |
| HttpServerSpec.AcceptedIdsAreDistinct | crates/http-bidir-comm/src/server.rs:189-206 | Unique ids stay unique per client |
| HttpServerSpec.ServerDelivers | crates/http-bidir-comm/src/server.rs:77-257 | Conservation, FIFO delivery at most once, results at most once and only for delivered tasks, and both bounds, for every run and client |
| HttpServerSpec.TasksBelongToOneClient | crates/http-bidir-comm/src/server.rs:223-257 | A task accepted for one client is never handed to nor finished by another |
| HttpServerSpec.HistoryBound | crates/http-bidir-comm/src/server.rs:104-129 | The configured history bound is kept exactly when it is at least 1 |
| HttpServers.ClientQueue.EnqueueTask | crates/http-bidir-comm/src/server.rs:77-87 | The new queue, or the error when full |
| HttpServers.ClientQueue.DequeueTask | crates/http-bidir-comm/src/server.rs:89-102 | Hands out the oldest pending task, marked as processing for the client |
| HttpServers.ClientQueue.CompleteTask | crates/http-bidir-comm/src/server.rs:104-129 | Accepts a result for a task being processed and trims the history, or the error |
| HttpServers.FailuresCounted | crates/http-bidir-comm/src/server.rs:131-139 | The failures are as many as the results that are not successful |
| HttpServers.ClientQueue.GetStats | crates/http-bidir-comm/src/server.rs:131-139 | Counts of the three collections and of the unsuccessful results, and the last activity |
| HttpServers.HttpServer.OpenQueue | crates/http-bidir-comm/src/server.rs:197-200 | Finds the client's queue or makes an empty one, and leaves the other queues alone |
| HttpServers.HttpServer.EnqueueTaskForClient | crates/http-bidir-comm/src/server.rs:189-206 | One event of the server runs, and its result |
| HttpServers.HttpServer.PollTask | crates/http-bidir-comm/src/server.rs:223-235 | One event of the server runs, and what it hands out |
| HttpServers.HttpServer.SubmitResult | crates/http-bidir-comm/src/server.rs:237-257 | One event of the server runs; succeeds exactly for a task being processed for that client |
| PodStoreSpec.RunIsSound | crates/hypervisor/src/core/pod/pod_state_store.rs:62-192 | Over any sequence of operations no reverse entry dangles |
| PodStoreSpec.ExactUnlessCrossed | crates/hypervisor/src/core/pod/pod_state_store.rs:145-192 | The two maps stay inverse to each other exactly when the process is no other pod's |
| PodStoreSpec.RunIsExact | crates/hypervisor/src/core/pod/pod_state_store.rs:62-192 | The two maps are inverse all along a run exactly when processes are one pod's at a time and leave the pod that has them |
| PodManagerSpec.StoreRoundTrip | crates/hypervisor/src/core/pod/pod_state_store.rs:145-192 | Registering and unregistering gives the store back exactly when the process was new there |
| PodManagerSpec.SegmentRoundTrip | crates/utils/src/shared_memory/mod.rs:993-999 | Adding and removing gives the segment back exactly when the pid was not in it |
| PodManagerSpec.FailedRegistrationUndoes | crates/hypervisor/src/core/pod/manager.rs:406-513 | When the undo calls succeed, a failed registration restores store and pid set exactly when the pod is unknown or the process was new |
| PodManagerSpec.ExitUndoesRegistration | crates/hypervisor/src/core/pod/manager.rs:610-655 | Cleaning up after an exit undoes a registration, but for the opened handle, exactly when the process was new |
| PodManagerSpec.StepKeepsAgreement | crates/hypervisor/src/core/pod/manager.rs:268-655 | From agreement of store, segments and hypervisor, a registration, an exit, a pod that comes, changes or goes leads to agreement exactly under a condition on the event that can be checked before |
| PodManagerSpec.RunKeepsAgreement | crates/hypervisor/src/core/pod/manager.rs:268-655 | The three agree all along a run exactly when every event meets that condition |
| PodManagerSpec.FailedPodIsNotRetried | crates/hypervisor/src/core/pod/manager.rs:297-361 | A pod whose segment could not be removed or created counts as registered the next time, with no segment made |
| PodLifecycles.NewPodIsListed | crates/hypervisor/src/core/pod/manager.rs:297-361 | A new pod gets exactly the processes its segment lists, each is looked up to it, and nothing else changes |
| PodLifecycles.ExitsLeave | crates/hypervisor/src/core/pod/manager.rs:610-655 | After any exits whose segments give the pids back, pod and segment list exactly the processes that have not exited |
| PodLifecycles.RestoredProcessesExit | crates/hypervisor/src/core/pod/manager.rs:297-655 | So when all processes found in a new pod's segment have exited, both are empty and the pod can be removed |
| PodLifecycles.PodRoundTrip | crates/hypervisor/src/core/pod/pod_state_store.rs:62-140 | Registering a new pod and removing it gives the store back |
| PodLifecycles.HandleOpens | crates/hypervisor/src/core/pod/pod_state_store.rs:260-292 | A pod's handle is open after an event exactly if the pod is there and it was open before or a registration of one of its processes succeeded |
| PodManagers.PodStateStore.RegisterPod | crates/hypervisor/src/core/pod/pod_state_store.rs:62-116 | Keeps processes and handle of a pod registered again, and says whether there was one |
| PodManagers.PodStateStore.UnregisterPod | crates/hypervisor/src/core/pod/pod_state_store.rs:121-140 | Removes an empty pod, or the errors |
| PodManagers.PodStateStore.RegisterProcess | crates/hypervisor/src/core/pod/pod_state_store.rs:145-163 | Updates both maps, or the error |
| PodManagers.PodStateStore.UnregisterProcess | crates/hypervisor/src/core/pod/pod_state_store.rs:168-192 | Updates both maps, or the error |
| PodManagers.PodStateStore.GetPodByPid | crates/hypervisor/src/core/pod/pod_state_store.rs:217-221 | Looks the process up |
| PodManagers.PodStateStore.OpenSharedMemory | crates/hypervisor/src/core/pod/pod_state_store.rs:260-292 | Records the handle, or the errors, for any pod |
| PodManagers.LimiterCoordinator.RegisterProcess | crates/hypervisor/src/core/pod/coordinator.rs:653-673 | Adds the pid to the pod's segment; a full segment is no error |
| PodManagers.LimiterCoordinator.UnregisterProcess | crates/hypervisor/src/core/pod/coordinator.rs:676-696 | Removes the pid from the segment, or the error |
| PodManagers.LimiterCoordinator.UnregisterPod | crates/hypervisor/src/core/pod/coordinator.rs:639-650 | Removes the segment, or the error |
| PodManagers.LimiterCoordinator.EnsurePodRegistered | crates/hypervisor/src/core/pod/coordinator.rs:562-637 | Returns the pids of an existing segment, or makes an empty one, or the error |
| PodManagers.PodManager.RegisterProcessToAllComponents | crates/hypervisor/src/core/pod/manager.rs:406-513 | The sequence of updates with both rollbacks has exactly the specified result and state |
| PodManagers.PodManager.HandleProcessExited | crates/hypervisor/src/core/pod/manager.rs:610-655 | The clean-up has exactly the specified result and state |
| PodManagers.PodManager.EnsurePodRegistered | crates/hypervisor/src/core/pod/manager.rs:268-362 | New and changed pods: the sequence over store and coordinator has exactly the specified result and state; a new pod ends with the processes its segment lists, each looked up to it |
| PodManagers.PodManager.RestoreProcesses | crates/hypervisor/src/core/pod/manager.rs:354-359 | The loop over restored pids registers exactly those |
| CoreShare.ScalingNeverLowers | crates/hypervisor/src/core/pod/coordinator.rs:859-872 | The scaling branch never lowers the increment |
| CoreShare.IncrementNeverOverflows | crates/hypervisor/src/core/pod/coordinator.rs:859-872 | Within the bounds no 32-bit operation overflows, so in debug and release builds the increment is the one over the integers |
| CoreShare.IncrementAccuracy | crates/hypervisor/src/core/pod/coordinator.rs:859-872 | The plain increment falls short of sm_count^2 * max_thread_per_sm * diff / 2560 by less than 1 + diff / 10; beyond half the limit the increment falls short of 2 * diff / (up_limit + 1) times the plain one by less than 1 |
| CoreShare.DeltaNeverOverflows | crates/hypervisor/src/core/pod/coordinator.rs:826-856 | Nor does the new share, which stays in [0, total] |
| CoreShare.RunNeverOverflows | crates/hypervisor/src/core/pod/coordinator.rs:826-872 | Nor does any series of adjustments: in both builds it is the one over the integers, with the share in [0, total] |
| CoreShare.IncrementExact | crates/hypervisor/src/core/pod/coordinator.rs:859-872 | For inputs below 2^31, exactly when the increment of a debug build does not panic, and then it is the one over the integers |
| CoreShare.DeltaExact | crates/hypervisor/src/core/pod/coordinator.rs:826-856 | The same for the new share: a debug build panics exactly unless every product and the raised share fit, and then both builds compute it over the integers |
| CoreShare.BuildsAgree | crates/hypervisor/src/core/pod/coordinator.rs:826-872 | For all inputs, where a debug build does not panic a release build computes the same |
| CoreShare.ReleasePanics | crates/hypervisor/src/core/pod/coordinator.rs:826-872 | For all inputs, exactly when a release build panics: a limit that reads as -1, or as -2 with a dividend that has wrapped to the least number |
| CoreShare.OverflowingDevice | crates/hypervisor/src/core/pod/coordinator.rs:859-872 | A device on which a debug build panics and a release build gives no cores where the formula gives all |
| CoreShare.LowReadingsRaise | crates/hypervisor/src/core/pod/coordinator.rs:826-856 | Readings within the limit raise the share by at least the least step each, until it is the total |
| CoreShare.HighReadingsLower | crates/hypervisor/src/core/pod/coordinator.rs:826-856 | Readings above the limit lower it likewise, until it is 0 |
| CoreShare.MovesIffLargeEnough | crates/hypervisor/src/core/pod/coordinator.rs:859-872 | The least step is positive exactly when sm_count^2 * max_thread_per_sm >= 512 |
| CoreShare.Converges | crates/hypervisor/src/core/pod/coordinator.rs:826-872 | Then a bounded number of readings on one side drives the share to total or to 0 |
| CoreShare.DrivesShare | crates/hypervisor/src/core/pod/coordinator.rs:826-872 | So in the source's arithmetic, within the bounds, as many readings on one side as the share has to go drive it all the way |
| CoreShare.StuckNearLimit | crates/hypervisor/src/core/pod/coordinator.rs:826-872 | Otherwise a share never moves while utilization stays within 5 of the limit |
| CoreShare.SharedDeviceInfoV1.UpdateV1State | crates/hypervisor/src/core/pod/coordinator.rs:443-476 | Panics exactly when the arithmetic of the build does, with nothing changed; else replaces the share of an active device by the moved one, in [0, total] within the bounds |

## Left out

- IEEE rounding, NaN, signed zero and the bit encoding of `f64`: reals stand for them; equality of bits is equality of reals.
- Weak-memory orderings.
- DeviceControllers.DeviceController.UpdateInternal: a device deactivated in the middle of an update is not modelled; activity changes only between calls, so after the first access of an update the others succeed.
- Two controllers for one device, and the initialisation of the bucket while clients already run.
- The exponential function of the cost curve: any monotone function into (0, 1] on non-positive arguments, strict or multiplicative only where a lemma says so.
- KernelLimiters.WaitAndRetry: others launch only while it sleeps, one at a time; the interleavings are CasBucket's. The health check is a parameter, its two errors are one, and logging is left out.
- KernelLimiters.RateLimiterV2: has no competing consumers, because with them a launch can wait forever.
- Bitmap offsets are unbounded naturals: the source's 32-bit positions need at most 2^26 words, far above the 2048 in use.
- `get_mut`, `indices`, `values` and the other read-only views of the slot set.
- Spinning, sleeping and back-off in `ShmMutex::lock`, and the panic path of its guard.
- KeyedLocks.OneGuard: `lock` takes its two references in one step, since the code only ever asks whether the count is 1. A cancelled `lock` gives them back in two.
- Sharding and waiting order inside the keyed lock's map and mutexes; `len` and `active_locks`.
- Notifications, and statistics over all clients of the server.
- PodManagers.PodStateStore.UnregisterPod: the test for processes and the removal are one step, where the source has two map accesses.
- CoreShare.SharedDeviceInfoV1.UpdateV1State: one adjustment at a time, because the race between its load and store and the launches that take cores is not modelled.
- The manager's calls run one at a time; their interleaving under the keyed lock is not modelled. Finding pods in existing segments at startup, and the loop that looks for dead processes.
- PodManagers.LimiterCoordinator.EnsurePodRegistered: the device limits written into a segment are not modelled.
- PodManagers.PodManager.EnsurePodRegistered: the pod's information and device configurations are a parameter; looking them up, which can fail before anything is registered, is not modelled.
- The periodic removal of unused segments.
- The weighted scheduler, CUDA and NVML hooks, checkpointing, HTTP routes, Kubernetes, `/proc`, configuration and file system handling.
