/** What the rate controller keeps over every sequence of updates, launches and device outages. */
module ControllerRuns {
  import opened Wrappers
  import opened RealMath
  import opened ControllerSpec

  datatype Event =
    | Update(utilization: real, delta: real)
    | UpdateAt(utilization: real, micros: nat)
    | Launch(cost: real)
    | SetActive(active: bool)

  /** What happened so far. `admitted` and `discarded` restart whenever the controller reads the token level. */
  datatype History = History(
    measured: seq<real>,         // clamped measurement of every accepted update
    errors: seq<(real, real)>,   // error and delta of every update that reached the bucket
    deltas: seq<real>,           // delta of every accepted update
    refills: seq<real>,          // delta of every update that reached the bucket
    requested: real,             // sum of rate * delta over those
    firstTime: Option<real>,     // first accepted timestamp
    admitted: real,              // cost taken by launches since the last read
    discarded: real,             // tokens lost to capping and clamping since the last read
    lastDelta: real)             // delta of the last update that reached the bucket

  datatype Run = Run(s: System, h: History)

  function Start(cfg: Config): Run
    requires ValidConfig(cfg)
  {
    Run(Initial(cfg), History([], [], [], [], 0.0, None, 0.0, 0.0, 0.0))
  }

  /** The delta of an update that is not rejected. */
  function AcceptedDelta(cfg: Config, s: System, e: Event): (delta: Option<real>)
    ensures delta.Some? ==> delta.value >= cfg.minDeltaTime
  {
    match e
    case Update(_, delta) => if delta < cfg.minDeltaTime then None else Some(delta)
    case UpdateAt(_, micros) => DeltaOf(cfg, s.control.lastTime, micros)
    case _ => None
  }

  function Stamped(s: System, e: Event): System {
    if e.UpdateAt? then s.(control := s.control.(lastTime := Some(Seconds(e.micros)))) else s
  }

  function Step(cfg: Config, s: System, e: Event): System
    requires ValidConfig(cfg)
  {
    match e
    case Launch(cost) => if s.bucket.active then s.(bucket := Consumed(s.bucket, cost)) else s
    case SetActive(active) => s.(bucket := s.bucket.(active := active))
    case _ =>
      match AcceptedDelta(cfg, s, e)
      case None => s
      case Some(delta) => Updated(cfg, Stamped(s, e), e.utilization, delta)
  }

  function Observe(cfg: Config, r: Run, e: Event): History
    requires ValidConfig(cfg)
  {
    var Run(s, h) := r;
    var s' := Step(cfg, s, e);
    if e.Launch? then
      h.(admitted := h.admitted + (s.bucket.tokens - s'.bucket.tokens))
    else
      match AcceptedDelta(cfg, s, e)
      case None => h
      case Some(delta) =>
        var first := if e.UpdateAt? && h.firstTime.None? then Some(Seconds(e.micros)) else h.firstTime;
        var h1 := h.(measured := h.measured + [Clamp(e.utilization, 0.0, 1.0)], deltas := h.deltas + [delta],
                     firstTime := first);
        if !s.bucket.active then h1
        else
          var amount := Times(s'.control.rate, delta);
          h1.(errors := h.errors + [(s'.control.lastError, delta)],
              refills := h.refills + [delta],
              requested := h.requested + amount,
              admitted := 0.0,
              discarded := s.bucket.tokens + amount - s'.bucket.tokens,
              lastDelta := delta)
  }

  function Exec(cfg: Config, r: Run, events: seq<Event>): Run
    requires ValidConfig(cfg)
  {
    if events == [] then r
    else
      var before := Exec(cfg, r, events[..|events| - 1]);
      Run(Step(cfg, before.s, events[|events| - 1]), Observe(cfg, before, events[|events| - 1]))
  }

  /** A launch never has a negative cost. */
  predicate Legal(events: seq<Event>) {
    forall k :: 0 <= k < |events| && events[k].Launch? ==> events[k].cost >= 0.0
  }

  // Ranges and published values.

  predicate InRange(cfg: Config, s: System)
    requires ValidConfig(cfg)
  {
    var System(c, b) := s;
    && cfg.rateMin <= c.rate <= cfg.rateMax
    && -1.0 <= c.integral <= 1.0
    && -1.0 <= c.lastError <= 1.0
    && (c.smoothed.Some? ==> 0.0 <= c.smoothed.value <= 1.0)
    && b.refillRate == c.rate
    && b.capacity == Capacity(cfg, c.rate)
    && 0.0 <= b.tokens <= b.capacity
    && 0.0 <= c.lastLevel
  }

  lemma InitialInRange(cfg: Config)
    requires ValidConfig(cfg)
    ensures InRange(cfg, Initial(cfg))
  {
  }

  lemma SmoothedInRange(cfg: Config, previous: Option<real>, measured: real, lo: real, hi: real)
    requires ValidConfig(cfg) && lo <= measured <= hi && (previous.Some? ==> lo <= previous.value <= hi)
    ensures lo <= Smoothed(cfg, previous, measured) <= hi
  {
    if previous.Some? {
      WeightedMean(cfg.filterAlpha, measured, previous.value, lo, hi);
    }
  }

  lemma {:induction false} UpdateInRange(cfg: Config, s: System, utilization: real, delta: real)
    requires ValidConfig(cfg) && delta > 0.0 && InRange(cfg, s)
    ensures InRange(cfg, Updated(cfg, s, utilization, delta))
    ensures DrainRate(s.control, s.bucket.tokens, delta) >= 0.0
  {
    SmoothedInRange(cfg, s.control.smoothed, Clamp(utilization, 0.0, 1.0), 0.0, 1.0);
  }

  lemma {:induction false} StepInRange(cfg: Config, s: System, e: Event)
    requires ValidConfig(cfg) && InRange(cfg, s) && (e.Launch? ==> e.cost >= 0.0)
    ensures InRange(cfg, Step(cfg, s, e))
  {
    if AcceptedDelta(cfg, s, e).Some? {
      UpdateInRange(cfg, Stamped(s, e), e.utilization, AcceptedDelta(cfg, s, e).value);
    }
  }

  /** Over every sequence of calls: the rate, the filter and the PID terms keep to their ranges, the bucket to its
      capacity, and the published rate and capacity are the controller's own. */
  lemma {:induction false} RunInRange(cfg: Config, events: seq<Event>)
    requires ValidConfig(cfg) && Legal(events)
    ensures InRange(cfg, Exec(cfg, Start(cfg), events).s)
  {
    if events == [] {
      InitialInRange(cfg);
    } else {
      RunInRange(cfg, events[..|events| - 1]);
      StepInRange(cfg, Exec(cfg, Start(cfg), events[..|events| - 1]).s, events[|events| - 1]);
    }
  }

  /** A rejected update changes nothing; on an inactive device an accepted one moves only the filter and the clock. */
  lemma RejectedChangesNothing(cfg: Config, s: System, e: Event)
    requires ValidConfig(cfg) && (e.Update? || e.UpdateAt?)
    ensures AcceptedDelta(cfg, s, e).None? ==> Step(cfg, s, e) == s
    ensures !s.bucket.active ==> Step(cfg, s, e).bucket == s.bucket
    ensures !s.bucket.active ==>
              var c := Step(cfg, s, e).control;
              c == s.control.(smoothed := c.smoothed, lastTime := c.lastTime)
  {
  }

  // The low-pass filter.

  /** The filter over a series of measurements. */
  function Filter(cfg: Config, start: Option<real>, ms: seq<real>): Option<real> {
    if ms == [] then start else Some(Smoothed(cfg, Filter(cfg, start, ms[..|ms| - 1]), ms[|ms| - 1]))
  }

  /** The controller's smoothed utilization is the filter over the clamped measurements of its accepted updates. */
  lemma {:induction false} RunFilters(cfg: Config, events: seq<Event>)
    requires ValidConfig(cfg)
    ensures var r := Exec(cfg, Start(cfg), events);
            r.s.control.smoothed == Filter(cfg, None, r.h.measured)
  {
    if events != [] {
      RunFilters(cfg, events[..|events| - 1]);
      var before, e := Exec(cfg, Start(cfg), events[..|events| - 1]), events[|events| - 1];
      if AcceptedDelta(cfg, before.s, e).Some? {
        var m := Clamp(e.utilization, 0.0, 1.0);
        assert (before.h.measured + [m])[..|before.h.measured|] == before.h.measured;
      }
    }
  }

  /** The filter stays between the least and the greatest measurement it has seen. */
  lemma {:induction false} FilterBetweenExtremes(cfg: Config, ms: seq<real>, lo: real, hi: real)
    requires ValidConfig(cfg) && ms != [] && forall k :: 0 <= k < |ms| ==> lo <= ms[k] <= hi
    ensures lo <= Filter(cfg, None, ms).value <= hi
  {
    if |ms| > 1 {
      FilterBetweenExtremes(cfg, ms[..|ms| - 1], lo, hi);
    }
    SmoothedInRange(cfg, Filter(cfg, None, ms[..|ms| - 1]), ms[|ms| - 1], lo, hi);
  }

  /** `n` equal measurements shrink the distance to them by the same factor each time. */
  lemma {:induction false} FilterConverges(cfg: Config, s0: real, ms: seq<real>, m: real)
    requires forall k :: 0 <= k < |ms| ==> ms[k] == m
    ensures Filter(cfg, Some(s0), ms).Some?
    ensures Filter(cfg, Some(s0), ms).value - m == Times(Power(1.0 - cfg.filterAlpha, |ms|), s0 - m)
  {
    if ms == [] {
      Unit(s0 - m);
    } else {
      FilterConverges(cfg, s0, ms[..|ms| - 1], m);
      var beta, prev := 1.0 - cfg.filterAlpha, Filter(cfg, Some(s0), ms[..|ms| - 1]).value;
      Distributes(1.0, cfg.filterAlpha, m);
      Unit(m);
      Distributes(prev, m, beta);
      Associates(beta, Power(beta, |ms| - 1), s0 - m);
    }
  }

  lemma {:induction false} FilterSplits(cfg: Config, ms: seq<real>, k: nat)
    requires k <= |ms|
    ensures Filter(cfg, None, ms) == Filter(cfg, Filter(cfg, None, ms[..k]), ms[k..])
  {
    if k < |ms| {
      var init := ms[..|ms| - 1];
      FilterSplits(cfg, init, k);
      assert init[..k] == ms[..k] && init[k..] == ms[k..][..|ms| - k - 1];
    } else {
      assert ms[..k] == ms;
    }
  }

  /** Over any run with an accepted update, the smoothed utilization lies between any bounds of its measurements. */
  lemma {:induction false} SmoothedBetweenExtremes(cfg: Config, events: seq<Event>, lo: real, hi: real)
    requires ValidConfig(cfg) && Exec(cfg, Start(cfg), events).h.measured != []
    requires forall m :: m in Exec(cfg, Start(cfg), events).h.measured ==> lo <= m <= hi
    ensures var smoothed := Exec(cfg, Start(cfg), events).s.control.smoothed;
            smoothed.Some? && lo <= smoothed.value <= hi
  {
    var ms := Exec(cfg, Start(cfg), events).h.measured;
    RunFilters(cfg, events);
    assert forall k :: 0 <= k < |ms| ==> ms[k] in ms;
    FilterBetweenExtremes(cfg, ms, lo, hi);
  }

  lemma {:induction false} FilterSettles(cfg: Config, ms: seq<real>, k: nat, m: real)
    requires 0 < k <= |ms| && forall i :: k <= i < |ms| ==> ms[i] == m
    ensures Filter(cfg, None, ms[..k]).Some? && Filter(cfg, None, ms).Some?
    ensures Filter(cfg, None, ms).value - m ==
            Times(Power(1.0 - cfg.filterAlpha, |ms| - k), Filter(cfg, None, ms[..k]).value - m)
  {
    FilterSplits(cfg, ms, k);
    FilterConverges(cfg, Filter(cfg, None, ms[..k]).value, ms[k..], m);
  }

  /** If a run goes on from `earlier` and all measurements since equal `m`, each has shrunk the distance of the smoothed
      utilization to `m` by the same factor. */
  lemma {:induction false} SmoothedConverges(cfg: Config, earlier: seq<Event>, events: seq<Event>, m: real)
    requires ValidConfig(cfg)
    requires var ms, ms' := Exec(cfg, Start(cfg), earlier).h.measured, Exec(cfg, Start(cfg), events).h.measured;
             ms != [] && ms <= ms' && forall k :: |ms| <= k < |ms'| ==> ms'[k] == m
    ensures var r, r' := Exec(cfg, Start(cfg), earlier), Exec(cfg, Start(cfg), events);
            && r.s.control.smoothed.Some? && r'.s.control.smoothed.Some?
            && r'.s.control.smoothed.value - m ==
               Times(Power(1.0 - cfg.filterAlpha, |r'.h.measured| - |r.h.measured|), r.s.control.smoothed.value - m)
  {
    var ms, ms' := Exec(cfg, Start(cfg), earlier).h.measured, Exec(cfg, Start(cfg), events).h.measured;
    RunFilters(cfg, earlier);
    RunFilters(cfg, events);
    assert ms'[..|ms|] == ms;
    FilterSettles(cfg, ms', |ms|, m);
  }

  // The integral term.

  /** The integral over a series of errors and deltas. */
  function Windup(cfg: Config, terms: seq<(real, real)>): real {
    if terms == [] then 0.0
    else Integral(cfg, Windup(cfg, terms[..|terms| - 1]), terms[|terms| - 1].0, terms[|terms| - 1].1)
  }

  /** The controller's integral is that of the errors and deltas its updates used. */
  lemma {:induction false} RunIntegrates(cfg: Config, events: seq<Event>)
    requires ValidConfig(cfg)
    ensures var r := Exec(cfg, Start(cfg), events);
            r.s.control.integral == Windup(cfg, r.h.errors)
  {
    if events != [] {
      RunIntegrates(cfg, events[..|events| - 1]);
      StepIntegrates(cfg, Exec(cfg, Start(cfg), events[..|events| - 1]), events[|events| - 1]);
    }
  }

  lemma StepIntegrates(cfg: Config, r: Run, e: Event)
    requires ValidConfig(cfg) && r.s.control.integral == Windup(cfg, r.h.errors)
    ensures Step(cfg, r.s, e).control.integral == Windup(cfg, Observe(cfg, r, e).errors)
  {
    if AcceptedDelta(cfg, r.s, e).Some? && r.s.bucket.active {
      var last := (Step(cfg, r.s, e).control.lastError, AcceptedDelta(cfg, r.s, e).value);
      assert (r.h.errors + [last])[..|r.h.errors|] == r.h.errors;
    }
  }

  /** With errors within E and deltas within D, the integral stays within 1 and within the decaying sum of E * D. */
  lemma {:induction false} WindupBounded(cfg: Config, terms: seq<(real, real)>, errorBound: real, deltaBound: real)
    requires ValidConfig(cfg)
    requires forall k :: 0 <= k < |terms| ==> Abs(terms[k].0) <= errorBound && 0.0 <= terms[k].1 <= deltaBound
    ensures Abs(Windup(cfg, terms)) <= 1.0
    ensures Abs(Windup(cfg, terms)) <= Times(Times(errorBound, deltaBound), GeometricSum(cfg.integralDecay, |terms|))
  {
    var n, unit := |terms|, Times(errorBound, deltaBound);
    if n == 0 {
      Unit(unit);
    } else {
      WindupBounded(cfg, terms[..n - 1], errorBound, deltaBound);
      var before, bound := Windup(cfg, terms[..n - 1]), Times(unit, GeometricSum(cfg.integralDecay, n - 1));
      AbsProduct(before, cfg.integralDecay, bound, cfg.integralDecay);
      AbsProduct(terms[n - 1].0, terms[n - 1].1, errorBound, deltaBound);
      Associates(unit, GeometricSum(cfg.integralDecay, n - 1), cfg.integralDecay);
      Commutes(GeometricSum(cfg.integralDecay, n - 1), cfg.integralDecay);
      Distributes(1.0, Times(cfg.integralDecay, GeometricSum(cfg.integralDecay, n - 1)), unit);
      Unit(unit);
    }
  }

  /** Equal errors and deltas attain it, as long as it is within 1. */
  lemma {:induction false} WindupAttained(cfg: Config, terms: seq<(real, real)>, error: real, delta: real)
    requires ValidConfig(cfg) && error >= 0.0 && delta >= 0.0
    requires forall k :: 0 <= k < |terms| ==> terms[k] == (error, delta)
    requires Times(Times(error, delta), GeometricSum(cfg.integralDecay, |terms|)) <= 1.0
    ensures Windup(cfg, terms) == Times(Times(error, delta), GeometricSum(cfg.integralDecay, |terms|))
  {
    var n, unit := |terms|, Times(error, delta);
    NonNegative(error, delta);
    if n == 0 {
      Unit(unit);
    } else {
      var earlier := GeometricSum(cfg.integralDecay, n - 1);
      GeometricGrows(cfg.integralDecay, n - 1);
      Monotone(earlier, GeometricSum(cfg.integralDecay, n), unit);
      WindupAttained(cfg, terms[..n - 1], error, delta);
      Associates(unit, earlier, cfg.integralDecay);
      Commutes(earlier, cfg.integralDecay);
      Distributes(1.0, Times(cfg.integralDecay, earlier), unit);
      Unit(unit);
      NonNegative(unit, GeometricSum(cfg.integralDecay, n));
    }
  }

  lemma {:induction false} GeometricGrows(b: real, n: nat)
    requires 0.0 <= b
    ensures 0.0 <= GeometricSum(b, n) <= GeometricSum(b, n + 1)
  {
    if n == 0 {
      Unit(b);
    } else {
      GeometricGrows(b, n - 1);
      Monotone(GeometricSum(b, n - 1), GeometricSum(b, n), b);
      NonNegative(b, GeometricSum(b, n - 1));
    }
  }

  /** The same bound in closed form, for a controller over any run. */
  lemma {:induction false} AntiWindup(cfg: Config, events: seq<Event>, errorBound: real, deltaBound: real)
    requires ValidConfig(cfg) && cfg.integralDecay < 1.0
    requires forall t :: t in Exec(cfg, Start(cfg), events).h.errors ==>
               Abs(t.0) <= errorBound && 0.0 <= t.1 <= deltaBound
    ensures var r, decay := Exec(cfg, Start(cfg), events), cfg.integralDecay;
            Abs(r.s.control.integral) <=
            Min(1.0, Times(Times(errorBound, deltaBound), Over(1.0 - Power(decay, |r.h.errors|), 1.0 - decay)))
  {
    var terms := Exec(cfg, Start(cfg), events).h.errors;
    RunIntegrates(cfg, events);
    WindupBounded(cfg, terms, errorBound, deltaBound);
    GeometricClosedForm(cfg.integralDecay, |terms|);
  }

  // Token accounting between two reads.

  /** The level is what the last read left, plus the refill, less what capping and clamping discarded and launches
      took. */
  predicate LevelExplained(s: System, h: History) {
    && s.bucket.tokens == s.control.lastLevel + Times(s.control.rate, h.lastDelta) - h.discarded - h.admitted
    && h.discarded >= 0.0 && h.admitted >= 0.0 && h.lastDelta >= 0.0
  }

  lemma DrivenDiscards(cfg: Config, b: Bucket, rate: real, delta: real)
    requires ValidConfig(cfg) && delta >= 0.0 && rate >= 0.0 && b.tokens >= 0.0 && b.capacity >= 0.0
    ensures 0.0 <= Driven(cfg, b, rate, delta).tokens <= b.tokens + Times(rate, delta)
  {
    NonNegative(rate, delta);
  }

  lemma {:induction false} RunExplainsLevel(cfg: Config, events: seq<Event>)
    requires ValidConfig(cfg) && Legal(events)
    ensures var r := Exec(cfg, Start(cfg), events);
            LevelExplained(r.s, r.h)
  {
    if events == [] {
      Unit(StartRate(cfg));
    } else {
      RunExplainsLevel(cfg, events[..|events| - 1]);
      RunInRange(cfg, events[..|events| - 1]);
      var before, e := Exec(cfg, Start(cfg), events[..|events| - 1]), events[|events| - 1];
      if AcceptedDelta(cfg, before.s, e).Some? && before.s.bucket.active {
        StepInRange(cfg, before.s, e);
        var rate, delta := Step(cfg, before.s, e).control.rate, AcceptedDelta(cfg, before.s, e).value;
        DrivenDiscards(cfg, before.s.bucket, rate, delta);
      }
    }
  }

  /** What the next update estimates as drain, over its delta, is what launches took since the last read, plus what was
      discarded, plus the previous rate over the growth of the delta; never less than 0. */
  lemma {:induction false} DrainIdentity(cfg: Config, events: seq<Event>, delta: real)
    requires ValidConfig(cfg) && Legal(events) && delta > 0.0
    ensures var r := Exec(cfg, Start(cfg), events);
            Times(DrainRate(r.s.control, r.s.bucket.tokens, delta), delta) ==
            Max(0.0, r.h.admitted + r.h.discarded + Times(r.s.control.rate, delta - r.h.lastDelta))
  {
    RunExplainsLevel(cfg, events);
    var Run(s, h) := Exec(cfg, Start(cfg), events);
    Distributes(delta, h.lastDelta, s.control.rate);
    ScaledMax(s.control.lastLevel + Times(s.control.rate, delta) - s.bucket.tokens, delta);
  }

  /** So the estimate covers what launches took exactly when they took nothing, or the discarded tokens make up for a
      shorter delta; with deltas that do not shrink it always does. */
  lemma {:induction false} DrainCoversLaunches(cfg: Config, events: seq<Event>, delta: real)
    requires ValidConfig(cfg) && Legal(events) && delta > 0.0
    ensures var r := Exec(cfg, Start(cfg), events);
            && (Times(DrainRate(r.s.control, r.s.bucket.tokens, delta), delta) >= r.h.admitted <==>
                r.h.admitted == 0.0 || r.h.discarded >= Times(r.s.control.rate, r.h.lastDelta - delta))
            && (delta >= r.h.lastDelta ==>
                  Times(DrainRate(r.s.control, r.s.bucket.tokens, delta), delta) >= r.h.admitted)
  {
    DrainIdentity(cfg, events, delta);
    RunExplainsLevel(cfg, events);
    RunInRange(cfg, events);
    var Run(s, h) := Exec(cfg, Start(cfg), events);
    var growth, shrink := Times(s.control.rate, delta - h.lastDelta), Times(s.control.rate, h.lastDelta - delta);
    assert shrink == -growth by {
      Distributes(delta, h.lastDelta, s.control.rate);
      Distributes(h.lastDelta, delta, s.control.rate);
    }
    assert delta >= h.lastDelta ==> growth >= 0.0 by {
      if delta >= h.lastDelta {
        NonNegative(s.control.rate, delta - h.lastDelta);
      }
    }
    CoversIff(h.admitted, h.discarded, growth, shrink);
  }

  lemma CoversIff(admitted: real, discarded: real, growth: real, shrink: real)
    requires admitted >= 0.0 && discarded >= 0.0 && shrink == -growth
    ensures Max(0.0, admitted + discarded + growth) >= admitted <==> admitted == 0.0 || discarded >= shrink
    ensures growth >= 0.0 ==> discarded >= shrink
  {
  }

  // Time accounting.

  predicate OnlyTimestamps(events: seq<Event>) {
    forall k :: 0 <= k < |events| ==> !events[k].Update?
  }

  predicate TimeAccounted(cfg: Config, r: Run) {
    && (forall k :: 0 <= k < |r.h.deltas| ==> r.h.deltas[k] >= cfg.minDeltaTime)
    && (r.h.firstTime.None? <==> r.s.control.lastTime.None?)
    && (r.h.firstTime.None? ==> r.h.deltas == [])
    && (r.h.firstTime.Some? ==>
          Sum(r.h.deltas) == r.s.control.lastTime.value - r.h.firstTime.value + cfg.minDeltaTime)
  }

  lemma StepAccountsTime(cfg: Config, r: Run, e: Event)
    requires ValidConfig(cfg) && TimeAccounted(cfg, r) && !e.Update?
    ensures TimeAccounted(cfg, Run(Step(cfg, r.s, e), Observe(cfg, r, e)))
  {
    if AcceptedDelta(cfg, r.s, e).Some? {
      var delta, s' := AcceptedDelta(cfg, r.s, e).value, Step(cfg, r.s, e);
      assert s'.control.lastTime == Some(Seconds(e.micros));
      assert Observe(cfg, r, e).deltas == r.h.deltas + [delta];
      SumGrows(r.h.deltas, delta);
    }
  }

  /** Whatever the timestamps, stale ones and ones from the past included: each accepted delta is at least the minimum,
      and they add up to the time from the first accepted timestamp to the last, plus one minimum delta. */
  lemma {:induction false} RunAccountsTime(cfg: Config, events: seq<Event>)
    requires ValidConfig(cfg) && OnlyTimestamps(events)
    ensures TimeAccounted(cfg, Exec(cfg, Start(cfg), events))
  {
    if events != [] {
      RunAccountsTime(cfg, events[..|events| - 1]);
      StepAccountsTime(cfg, Exec(cfg, Start(cfg), events[..|events| - 1]), events[|events| - 1]);
    }
  }

  lemma SumGrows(xs: seq<real>, x: real)
    ensures Sum(xs + [x]) == Sum(xs) + x
  {
    assert (xs + [x])[..|xs|] == xs;
  }

  predicate RequestBounded(cfg: Config, h: History) {
    && Times(cfg.rateMin, Sum(h.refills)) <= h.requested <= Times(cfg.rateMax, Sum(h.refills))
    && 0.0 <= Sum(h.refills) <= Sum(h.deltas)
  }

  /** What an event adds to the history: nothing, an accepted delta, or also a refill with its request. */
  lemma WhatIsRequested(cfg: Config, r: Run, e: Event)
    requires ValidConfig(cfg)
    ensures var h, h' := r.h, Observe(cfg, r, e);
            match AcceptedDelta(cfg, r.s, e)
            case None => h'.deltas == h.deltas && h'.refills == h.refills && h'.requested == h.requested
            case Some(delta) =>
              && h'.deltas == h.deltas + [delta]
              && if r.s.bucket.active then
                   && h'.refills == h.refills + [delta]
                   && h'.requested == h.requested + Times(Step(cfg, r.s, e).control.rate, delta)
                 else h'.refills == h.refills && h'.requested == h.requested
  {
  }

  lemma {:induction false} StepBoundsRequest(cfg: Config, r: Run, e: Event)
    requires ValidConfig(cfg) && RequestBounded(cfg, r.h)
    requires cfg.rateMin <= Step(cfg, r.s, e).control.rate <= cfg.rateMax
    ensures RequestBounded(cfg, Observe(cfg, r, e))
  {
    var rate := Step(cfg, r.s, e).control.rate;
    WhatIsRequested(cfg, r, e);
    if AcceptedDelta(cfg, r.s, e).Some? {
      var delta := AcceptedDelta(cfg, r.s, e).value;
      SumGrows(r.h.deltas, delta);
      SumGrows(r.h.refills, delta);
      RateOverTime(cfg.rateMin, cfg.rateMax, Sum(r.h.refills), r.h.requested, rate, delta);
    }
  }

  /** The refill requested over any run lies between the extreme rates over the time of the updates that got through,
      which is at most the time of all accepted updates. */
  lemma {:induction false} RunRequestsRefill(cfg: Config, events: seq<Event>)
    requires ValidConfig(cfg) && Legal(events)
    ensures RequestBounded(cfg, Exec(cfg, Start(cfg), events).h)
  {
    if events == [] {
      Unit(cfg.rateMin);
      Unit(cfg.rateMax);
    } else {
      var before, e := Exec(cfg, Start(cfg), events[..|events| - 1]), events[|events| - 1];
      RunRequestsRefill(cfg, events[..|events| - 1]);
      RunInRange(cfg, events[..|events| - 1]);
      StepInRange(cfg, before.s, e);
      StepBoundsRequest(cfg, before, e);
    }
  }

  /** On a device that stays active every accepted update gets through. */
  lemma {:induction false} ActiveDeviceRefills(cfg: Config, events: seq<Event>)
    requires ValidConfig(cfg) && forall k :: 0 <= k < |events| ==> !events[k].SetActive?
    ensures var Run(s, h) := Exec(cfg, Start(cfg), events);
            s.bucket.active && h.refills == h.deltas
  {
    if events != [] {
      ActiveDeviceRefills(cfg, events[..|events| - 1]);
    }
  }

  /** So on an active device driven by timestamps, the requested refill lies between the extreme rates over the time
      from the first accepted timestamp to the last, plus one minimum delta. */
  lemma {:induction false} RefillOverTime(cfg: Config, events: seq<Event>)
    requires ValidConfig(cfg) && Legal(events)
    requires forall k :: 0 <= k < |events| ==> !events[k].SetActive? && !events[k].Update?
    requires Exec(cfg, Start(cfg), events).h.firstTime.Some?
    ensures var Run(s, h) := Exec(cfg, Start(cfg), events);
            && s.control.lastTime.Some?
            && var elapsed := s.control.lastTime.value - h.firstTime.value + cfg.minDeltaTime;
               Times(cfg.rateMin, elapsed) <= h.requested <= Times(cfg.rateMax, elapsed)
  {
    RunAccountsTime(cfg, events);
    ActiveDeviceRefills(cfg, events);
    RunRequestsRefill(cfg, events);
  }

  // How long a launch waits.

  predicate NobodyElse(events: seq<Event>) {
    forall k :: 0 <= k < |events| ==> !events[k].Launch?
  }

  /** What an update that gets through requests at least. */
  function LeastRefill(cfg: Config): real {
    Times(cfg.rateMin, cfg.minDeltaTime)
  }

  /** One event other than a launch: the level does not fall below the least capacity's reach, and an update that gets
      through adds at least the least refill to it. */
  lemma StepFills(cfg: Config, r: Run, e: Event, level: real)
    requires ValidConfig(cfg) && InRange(cfg, r.s) && !e.Launch?
    requires r.s.bucket.tokens >= Min(cfg.capacityMin, level)
    ensures var more := |Observe(cfg, r, e).refills| - |r.h.refills|;
            && 0 <= more <= 1
            && Step(cfg, r.s, e).bucket.tokens >=
               Min(cfg.capacityMin, if more == 1 then level + LeastRefill(cfg) else level)
  {
    if AcceptedDelta(cfg, r.s, e).Some? && r.s.bucket.active {
      StepInRange(cfg, r.s, e);
      var delta, rate := AcceptedDelta(cfg, r.s, e).value, Step(cfg, r.s, e).control.rate;
      Monotone(cfg.rateMin, rate, delta);
      Monotone(cfg.minDeltaTime, delta, cfg.rateMin);
      NonNegative(cfg.rateMin, cfg.minDeltaTime);
      RefillAtLeast(cfg, r.s.bucket, rate, delta, LeastRefill(cfg));
    }
  }

  /** Without competing launches, `k` updates that get through leave at least `k` least refills in the bucket, up to the
      least capacity. */
  lemma {:induction false} UpdatesFill(cfg: Config, start: Run, events: seq<Event>)
    requires ValidConfig(cfg) && InRange(cfg, start.s) && NobodyElse(events)
    ensures var end := Exec(cfg, start, events);
            && InRange(cfg, end.s)
            && |start.h.refills| <= |end.h.refills|
            && end.s.bucket.tokens >= Min(cfg.capacityMin, start.s.bucket.tokens +
                 Times((|end.h.refills| - |start.h.refills|) as real, LeastRefill(cfg)))
  {
    if events == [] {
      Unit(LeastRefill(cfg));
    } else {
      var before, e := Exec(cfg, start, events[..|events| - 1]), events[|events| - 1];
      UpdatesFill(cfg, start, events[..|events| - 1]);
      StepInRange(cfg, before.s, e);
      var k := |before.h.refills| - |start.h.refills|;
      StepFills(cfg, before, e, start.s.bucket.tokens + Times(k as real, LeastRefill(cfg)));
      Distributes(k as real, 1.0, LeastRefill(cfg));
      Unit(LeastRefill(cfg));
    }
  }

  lemma RefillAtLeast(cfg: Config, b: Bucket, rate: real, delta: real, unit: real)
    requires ValidConfig(cfg) && b.tokens >= 0.0 && b.capacity >= cfg.capacityMin && 0.0 <= unit <= Times(rate, delta)
    ensures Driven(cfg, b, rate, delta).tokens >= Min(cfg.capacityMin, b.tokens + unit)
  {
  }

  /** How many updates a launch of this cost waits for at most. */
  function UpdatesNeeded(cfg: Config, cost: real): (k: nat)
    requires ValidConfig(cfg) && cost >= 0.0
    ensures Times(k as real, LeastRefill(cfg)) >= cost
  {
    var unit := LeastRefill(cfg);
    Positive(cfg.rateMin, cfg.minDeltaTime);
    SignOfQuotient(cost, unit);
    var k: nat := Over(cost, unit).Floor + 1;
    Quotient(cost, unit);
    Monotone(Over(cost, unit), k as real, unit);
    k
  }

  /** A launch that costs no more than the least capacity is admitted once that many updates got through. */
  lemma {:induction false} BoundedWait(cfg: Config, start: Run, events: seq<Event>, cost: real)
    requires ValidConfig(cfg) && InRange(cfg, start.s) && NobodyElse(events) && 0.0 <= cost <= cfg.capacityMin
    requires |Exec(cfg, start, events).h.refills| >= |start.h.refills| + UpdatesNeeded(cfg, cost)
    ensures Exec(cfg, start, events).s.bucket.tokens >= cost
  {
    UpdatesFill(cfg, start, events);
    var k := |Exec(cfg, start, events).h.refills| - |start.h.refills|;
    Positive(cfg.rateMin, cfg.minDeltaTime);
    Monotone(UpdatesNeeded(cfg, cost) as real, k as real, LeastRefill(cfg));
  }
}
