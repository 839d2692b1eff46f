/** Which timestamps an update of the rate controller follows, and how long a launch waits by the clock. */
module ControllerClock {
  import opened Wrappers
  import opened RealMath
  import opened ControllerSpec
  import opened ControllerRuns

  /** At least the minimum delta after the last accepted timestamp. */
  predicate InTime(cfg: Config, last: real, micros: nat) {
    micros as real >= 1000000.0 * (last + cfg.minDeltaTime)
  }

  /** The event brings the time `t`, in seconds. */
  predicate Shows(e: Event, t: real) {
    e.UpdateAt? && 1000000.0 * t == e.micros as real
  }

  /** A timestamp is accepted exactly when it is the first or in time. It is then the last one, and stands for the time
      since the one before, or for the minimum delta; otherwise nothing changes. */
  lemma AcceptedInTime(cfg: Config, s: System, e: Event)
    requires ValidConfig(cfg) && e.UpdateAt?
    ensures var last, delta, s' := s.control.lastTime, AcceptedDelta(cfg, s, e), Step(cfg, s, e);
            && (delta.Some? <==> last.None? || InTime(cfg, last.value, e.micros))
            && (delta.None? ==> s' == s)
            && (delta.Some? ==> s'.control.lastTime.Some? && Shows(e, s'.control.lastTime.value))
            && (delta.Some? ==> delta.value == if last.None? then cfg.minDeltaTime
                                               else s'.control.lastTime.value - last.value)
  {
  }

  lemma ClockAdvances(cfg: Config, s: System, e: Event)
    requires ValidConfig(cfg) && s.control.lastTime.Some?
    ensures var last := Step(cfg, s, e).control.lastTime;
            last.Some? && last.value >= s.control.lastTime.value
  {
    if e.UpdateAt? {
      AcceptedInTime(cfg, s, e);
    }
  }

  /** Over any run the last accepted timestamp is less than the minimum delta behind each that came. */
  lemma {:induction false} KeepsUp(cfg: Config, start: Run, events: seq<Event>, k: nat)
    requires ValidConfig(cfg) && k < |events| && events[k].UpdateAt?
    ensures var last := Exec(cfg, start, events).s.control.lastTime;
            last.Some? && events[k].micros as real < 1000000.0 * (last.value + cfg.minDeltaTime)
  {
    var n := |events| - 1;
    var before := Exec(cfg, start, events[..n]);
    if k == n {
      AcceptedInTime(cfg, before.s, events[n]);
    } else {
      KeepsUp(cfg, start, events[..n], k);
      ClockAdvances(cfg, before.s, events[n]);
    }
  }

  predicate OnlyUpdatesAt(events: seq<Event>) {
    forall k :: 0 <= k < |events| ==> events[k].UpdateAt?
  }

  /** The last accepted timestamp at the start of a run or, if there is none yet, the first one of the run. */
  predicate Since(start: Run, events: seq<Event>, since: real) {
    && OnlyUpdatesAt(events) && events != [] && start.s.bucket.active
    && (start.s.control.lastTime == Some(since) || (start.s.control.lastTime.None? && Shows(events[0], since)))
  }

  /** The time of the updates that got through since `start`. */
  function Refilled(start: Run, end: Run): real {
    Sum(end.h.refills) - Sum(start.h.refills)
  }

  lemma StepRefills(cfg: Config, r: Run, e: Event)
    requires ValidConfig(cfg) && e.UpdateAt? && r.s.bucket.active
    ensures Step(cfg, r.s, e).bucket.active
    ensures var refills := Observe(cfg, r, e).refills;
            match AcceptedDelta(cfg, r.s, e)
            case None => refills == r.h.refills
            case Some(delta) => refills == r.h.refills + [delta] && Sum(refills) == Sum(r.h.refills) + delta
  {
    WhatIsRequested(cfg, r, e);
    if AcceptedDelta(cfg, r.s, e).Some? {
      SumGrows(r.h.refills, AcceptedDelta(cfg, r.s, e).value);
    }
  }

  /** On an active device the updates cover the time up to the last accepted timestamp, without gaps. */
  lemma {:induction false} RefillsCoverTime(cfg: Config, start: Run, events: seq<Event>, since: real)
    requires ValidConfig(cfg) && Since(start, events, since)
    ensures var end := Exec(cfg, start, events);
            && end.s.bucket.active && end.s.control.lastTime.Some?
            && Refilled(start, end) ==
               end.s.control.lastTime.value - since +
               (if start.s.control.lastTime.None? then cfg.minDeltaTime else 0.0)
  {
    var n := |events| - 1;
    var before, e := Exec(cfg, start, events[..n]), events[n];
    if n > 0 {
      RefillsCoverTime(cfg, start, events[..n], since);
    }
    StepRefills(cfg, before, e);
    AcceptedInTime(cfg, before.s, e);
  }

  /** One update: what it adds is at least the least rate over its delta, up to the least capacity. */
  lemma {:induction false} StepFillsByTime(cfg: Config, r: Run, e: Event, level: real)
    requires ValidConfig(cfg) && InRange(cfg, r.s) && e.UpdateAt? && r.s.bucket.active
    requires r.s.bucket.tokens >= Min(cfg.capacityMin, level)
    ensures var delta := AcceptedDelta(cfg, r.s, e).UnwrapOr(0.0);
            Step(cfg, r.s, e).bucket.tokens >= Min(cfg.capacityMin, level + Times(cfg.rateMin, delta))
  {
    Unit(cfg.rateMin);
    if AcceptedDelta(cfg, r.s, e).Some? {
      StepInRange(cfg, r.s, e);
      var delta, rate := AcceptedDelta(cfg, r.s, e).value, Step(cfg, r.s, e).control.rate;
      Monotone(cfg.rateMin, rate, delta);
      NonNegative(cfg.rateMin, delta);
      RefillAtLeast(cfg, r.s.bucket, rate, delta, Times(cfg.rateMin, delta));
    }
  }

  /** The level is at least what the least rate gives over the time since `start`, up to the least capacity. */
  predicate FilledByTime(cfg: Config, start: Run, end: Run)
    requires ValidConfig(cfg)
  {
    && InRange(cfg, end.s) && end.s.bucket.active
    && end.s.bucket.tokens >=
       Min(cfg.capacityMin, start.s.bucket.tokens + Times(cfg.rateMin, Refilled(start, end)))
  }

  lemma {:induction false} StepKeepsFilled(cfg: Config, start: Run, r: Run, e: Event)
    requires ValidConfig(cfg) && e.UpdateAt? && FilledByTime(cfg, start, r)
    ensures FilledByTime(cfg, start, Run(Step(cfg, r.s, e), Observe(cfg, r, e)))
  {
    StepInRange(cfg, r.s, e);
    StepRefills(cfg, r, e);
    StepFillsByTime(cfg, r, e, start.s.bucket.tokens + Times(cfg.rateMin, Refilled(start, r)));
    Distributes(Refilled(start, r), AcceptedDelta(cfg, r.s, e).UnwrapOr(0.0), cfg.rateMin);
  }

  /** So it is after any updates by timestamps, without competing launches. */
  lemma {:induction false} TimeFills(cfg: Config, start: Run, events: seq<Event>)
    requires ValidConfig(cfg) && InRange(cfg, start.s) && OnlyUpdatesAt(events) && start.s.bucket.active
    ensures FilledByTime(cfg, start, Exec(cfg, start, events))
  {
    if events == [] {
      Unit(cfg.rateMin);
    } else {
      var n := |events| - 1;
      TimeFills(cfg, start, events[..n]);
      StepKeepsFilled(cfg, start, Exec(cfg, start, events[..n]), events[n]);
    }
  }

  /** By the time the least rate has made up for the cost, counted to one minimum delta before any timestamp that came:
      whichever timestamps were accepted, a launch that costs no more than the least capacity finds its tokens. */
  lemma {:induction false} WaitByTheClock(cfg: Config, start: Run, events: seq<Event>, since: real,
                                          k: nat, t: real, cost: real)
    requires ValidConfig(cfg) && InRange(cfg, start.s) && Since(start, events, since)
    requires k < |events| && Shows(events[k], t)
    requires 0.0 <= cost <= cfg.capacityMin && cost <= Times(cfg.rateMin, t - cfg.minDeltaTime - since)
    ensures Exec(cfg, start, events).s.bucket.tokens >= cost
  {
    RefillsCoverTime(cfg, start, events, since);
    KeepsUp(cfg, start, events, k);
    TimeFills(cfg, start, events);
    Monotone(t - cfg.minDeltaTime - since, Refilled(start, Exec(cfg, start, events)), cfg.rateMin);
  }

  /** The time, in microseconds, of the timestamp before the `k`-th. */
  function Previous(events: seq<Event>, since: real, k: nat): real
    requires OnlyUpdatesAt(events) && k < |events|
  {
    if k == 0 then 1000000.0 * since else events[k - 1].micros as real
  }

  /** No timestamp is more than `gap` after the one before. */
  predicate Dense(events: seq<Event>, since: real, gap: real) {
    && OnlyUpdatesAt(events)
    && forall k :: 0 <= k < |events| ==> events[k].micros as real <= Previous(events, since, k) + 1000000.0 * gap
  }

  lemma DensePrefix(events: seq<Event>, since: real, gap: real, n: nat)
    requires Dense(events, since, gap) && n <= |events|
    ensures Dense(events[..n], since, gap)
  {
    forall k | 0 <= k < n
      ensures events[..n][k].micros as real <= Previous(events[..n], since, k) + 1000000.0 * gap
    {
      assert Previous(events[..n], since, k) == Previous(events, since, k);
    }
  }

  /** An accepted delta is at most the minimum and the gap, because the timestamp before was not far ahead. */
  lemma {:induction false} DeltaBounded(cfg: Config, start: Run, events: seq<Event>, since: real, gap: real)
    requires ValidConfig(cfg) && start.s.control.lastTime == Some(since)
    requires Dense(events, since, gap) && events != []
    ensures var n := |events| - 1;
            var delta := AcceptedDelta(cfg, Exec(cfg, start, events[..n]).s, events[n]);
            delta.Some? ==> delta.value <= cfg.minDeltaTime + gap
  {
    var n := |events| - 1;
    AcceptedInTime(cfg, Exec(cfg, start, events[..n]).s, events[n]);
    assert events[n].micros as real <= Previous(events, since, n) + 1000000.0 * gap;
    if n > 0 {
      KeepsUp(cfg, start, events[..n], n - 1);
    }
  }

  /** The updates that got through since `start` had deltas of at most `unit` on average. */
  predicate ShortDeltas(start: Run, end: Run, unit: real) {
    && end.s.bucket.active
    && Refilled(start, end) <= Times((|end.h.refills| - |start.h.refills|) as real, unit)
  }

  lemma StepKeepsShort(cfg: Config, start: Run, r: Run, e: Event, unit: real)
    requires ValidConfig(cfg) && e.UpdateAt? && ShortDeltas(start, r, unit)
    requires AcceptedDelta(cfg, r.s, e).UnwrapOr(unit) <= unit
    ensures ShortDeltas(start, Run(Step(cfg, r.s, e), Observe(cfg, r, e)), unit)
  {
    StepRefills(cfg, r, e);
    Distributes((|r.h.refills| - |start.h.refills|) as real, 1.0, unit);
    Unit(unit);
  }

  lemma {:induction false} DeltasBounded(cfg: Config, start: Run, events: seq<Event>, since: real, gap: real)
    requires ValidConfig(cfg) && start.s.bucket.active && start.s.control.lastTime == Some(since)
    requires Dense(events, since, gap)
    ensures ShortDeltas(start, Exec(cfg, start, events), cfg.minDeltaTime + gap)
  {
    if events == [] {
      Unit(cfg.minDeltaTime + gap);
    } else {
      var n := |events| - 1;
      DensePrefix(events, since, gap, n);
      DeltasBounded(cfg, start, events[..n], since, gap);
      DeltaBounded(cfg, start, events, since, gap);
      StepKeepsShort(cfg, start, Exec(cfg, start, events[..n]), events[n], cfg.minDeltaTime + gap);
    }
  }

  /** How many updates get through: with no gap between timestamps longer than `gap`, more than one for each minimum
      delta and gap, up to one minimum delta before the last timestamp. */
  lemma {:induction false} AcceptedOften(cfg: Config, start: Run, events: seq<Event>, since: real, gap: real, t: real)
    requires ValidConfig(cfg) && start.s.bucket.active && start.s.control.lastTime == Some(since)
    requires Dense(events, since, gap) && events != [] && Shows(events[|events| - 1], t)
    ensures var accepted := |Exec(cfg, start, events).h.refills| - |start.h.refills|;
            Times(accepted as real, cfg.minDeltaTime + gap) > t - cfg.minDeltaTime - since
  {
    var end := Exec(cfg, start, events);
    RefillsCoverTime(cfg, start, events, since);
    KeepsUp(cfg, start, events, |events| - 1);
    DeltasBounded(cfg, start, events, since, gap);
  }
}
