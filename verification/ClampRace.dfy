/** What the clamp's separate read and write can do: when an update lets tokens come out of nowhere. */
module ClampRaces {
  import opened RealMath
  import opened ControllerSpec
  import opened AtomicBucket
  import opened ControllerResponse

  // From a decision to the next.

  predicate NoDecision(actions: seq<Action>) {
    forall k :: 0 <= k < |actions| ==> !actions[k].Decide?
  }

  /** Steps of clients and of the update under way lead from one state to the other. */
  ghost predicate Within(cfg: Config, s: State, s': State)
    requires ValidConfig(cfg)
  {
    exists actions :: Legal(actions) && NoDecision(actions) && Exec(cfg, s, actions) == s'
  }

  lemma {:induction false} WithinStep(cfg: Config, s: State, s': State, a: Action)
    requires ValidConfig(cfg) && Within(cfg, s, s') && !a.Decide? && (a.Ask? ==> a.cost >= 0.0)
    ensures Within(cfg, s, Step(cfg, s', a))
  {
    var actions :| Legal(actions) && NoDecision(actions) && Exec(cfg, s, actions) == s';
    ExecBack(cfg, s, actions, a);
  }

  /** The state right after a decision: nothing else has happened yet. */
  predicate JustDecided(cfg: Config, s: State)
    requires ValidConfig(cfg)
  {
    InRange(cfg, s) && s.phase.Refilling?
  }

  function NewCapacity(cfg: Config, s: State): real
    requires ValidConfig(cfg)
  {
    Capacity(cfg, s.control.rate)
  }

  /** The level the refill would leave if no client took anything before it. */
  function FullLevel(s: State): real
    requires s.phase.Refilling?
  {
    Raised(s.tokens, s.phase.amount, s.capacity)
  }

  /** The new capacity is positive and below that level, and there is someone to take tokens. */
  predicate MayCreate(cfg: Config, s: State)
    requires ValidConfig(cfg) && s.phase.Refilling?
  {
    |s.clients| > 0 && 0.0 < NewCapacity(cfg, s) < FullLevel(s)
  }

  /** What launches took since the decision beyond what was there and what was requested. */
  function Excess(s: State, s': State): real {
    (s'.ledger.admitted - s.ledger.admitted) - s.tokens - (s'.ledger.requested - s.ledger.requested)
  }

  // What no schedule can do.

  /** How the rest of an update stands to its decision `s`. */
  ghost predicate Follows(cfg: Config, s: State, s': State)
    requires ValidConfig(cfg) && s.phase.Refilling?
  {
    var created, discarded := s'.ledger.created - s.ledger.created, s'.ledger.discarded - s.ledger.discarded;
    && s'.control == s.control && |s'.clients| == |s.clients|
    && s'.tokens == -Excess(s, s') - discarded + created
    && (!s'.phase.Refilling? ==> discarded >= Max(s.phase.amount - s.capacity, 0.0))
    && match s'.phase
       case Refilling(amount) =>
         amount == s.phase.amount && s'.capacity == s.capacity && s'.tokens <= s.tokens && created == discarded == 0.0
       case Resting => 0.0 <= created <= NewCapacity(cfg, s) && (MayCreate(cfg, s) || created == 0.0)
       case ClampWriting(_, _, window) =>
         created == 0.0 && (MayCreate(cfg, s) || NewCapacity(cfg, s) == 0.0 || (s.clients == [] && window == 0.0))
       case _ => s'.tokens <= FullLevel(s) && created == 0.0
  }

  lemma {:induction false} StepFollows(cfg: Config, s: State, s': State, a: Action)
    requires ValidConfig(cfg) && JustDecided(cfg, s) && InRange(cfg, s') && Follows(cfg, s, s') && !a.Decide?
    ensures Follows(cfg, s, Step(cfg, s', a))
  {
  }

  lemma {:induction false} RunFollows(cfg: Config, s: State, actions: seq<Action>)
    requires ValidConfig(cfg) && JustDecided(cfg, s) && Legal(actions) && NoDecision(actions)
    ensures InRange(cfg, Exec(cfg, s, actions)) && Follows(cfg, s, Exec(cfg, s, actions))
  {
    if actions != [] {
      var init, last := actions[..|actions| - 1], actions[|actions| - 1];
      RunFollows(cfg, s, init);
      StepInRange(cfg, Exec(cfg, s, init), last);
      StepFollows(cfg, s, Exec(cfg, s, init), last);
    }
  }

  // What some schedule does.

  /** Client `c` finishes what it is at. */
  lemma {:induction false} Finishes(cfg: Config, s: State, s1: State, c: nat) returns (s2: State)
    requires ValidConfig(cfg) && Within(cfg, s, s1) && InRange(cfg, s1) && c < |s1.clients|
    ensures Within(cfg, s, s2) && InRange(cfg, s2) && |s2.clients| == |s1.clients| && s2.clients[c].Idle?
    ensures s2.phase.ClampWriting? == s1.phase.ClampWriting? && (s1.clients[c].Asking? || s2.phase == s1.phase)
    ensures s2.control == s1.control && s2.capacity == s1.capacity && (s1.clients[c].Asking? || s2.tokens == s1.tokens)
    ensures s2.tokens + s2.ledger.admitted == s1.tokens + s1.ledger.admitted
    ensures s2.ledger.created == s1.ledger.created && s2.ledger.requested == s1.ledger.requested
    ensures s2.ledger.discarded == s1.ledger.discarded
  {
    WithinStep(cfg, s, s1, Take(c));
    StepInRange(cfg, s1, Take(c));
    var s' := Step(cfg, s1, Take(c));
    WithinStep(cfg, s, s', Answer(c));
    StepInRange(cfg, s', Answer(c));
    s2 := Step(cfg, s', Answer(c));
  }

  /** An idle client lowers the level as far as it likes. */
  lemma {:induction false} Lowers(cfg: Config, s: State, s1: State, c: nat, level: real) returns (s2: State)
    requires ValidConfig(cfg) && Within(cfg, s, s1) && InRange(cfg, s1) && c < |s1.clients| && s1.clients[c].Idle?
    requires 0.0 <= level <= s1.tokens
    ensures Within(cfg, s, s2) && InRange(cfg, s2) && |s2.clients| == |s1.clients| && s2.clients[c].Idle?
    ensures s2.phase.ClampWriting? == s1.phase.ClampWriting? && (s1.phase.ClampWriting? || s2.phase == s1.phase)
    ensures s2.control == s1.control && s2.capacity == s1.capacity && s2.tokens == level
    ensures s2.tokens + s2.ledger.admitted == s1.tokens + s1.ledger.admitted
    ensures s2.ledger.created == s1.ledger.created && s2.ledger.requested == s1.ledger.requested
    ensures s2.ledger.discarded == s1.ledger.discarded
  {
    var cost := s1.tokens - level;
    WithinStep(cfg, s, s1, Ask(c, cost));
    StepInRange(cfg, s1, Ask(c, cost));
    var s' := Step(cfg, s1, Ask(c, cost));
    assert s' == WithClient(s1, c, Asking(cost));
    WithinStep(cfg, s, s', Take(c));
    StepInRange(cfg, s', Take(c));
    s' := Step(cfg, s', Take(c));
    assert s'.clients[c].Answered? && s'.tokens == Lowered(s1.tokens, cost) == level;
    s2 := Finishes(cfg, s, s', c);
  }

  /** The update goes on until its clamp has read a level above the new capacity. */
  lemma {:induction false} ReachesClamp(cfg: Config, s: State, s1: State) returns (s2: State)
    requires ValidConfig(cfg) && Within(cfg, s, s1) && JustDecided(cfg, s1) && NewCapacity(cfg, s1) < FullLevel(s1)
    ensures Within(cfg, s, s2) && InRange(cfg, s2) && s2.phase.ClampWriting? && s2.clients == s1.clients
    ensures s2.tokens == FullLevel(s1) && s2.control == s1.control
    ensures s2.ledger == Filled(s1, s1.phase.amount, FullLevel(s1)).ledger
  {
    WithinStep(cfg, s, s1, Refill);
    StepInRange(cfg, s1, Refill);
    s2 := Step(cfg, s1, Refill);
    WithinStep(cfg, s, s2, PublishRate);
    StepInRange(cfg, s2, PublishRate);
    s2 := Step(cfg, s2, PublishRate);
    WithinStep(cfg, s, s2, PublishCapacity);
    StepInRange(cfg, s2, PublishCapacity);
    s2 := Step(cfg, s2, PublishCapacity);
    WithinStep(cfg, s, s2, ReadLevel);
    StepInRange(cfg, s2, ReadLevel);
    s2 := Step(cfg, s2, ReadLevel);
  }

  /** Someone empties the bucket between the clamp's read and its write, and then takes what the write created. */
  lemma {:induction false} EmptiesTwice(cfg: Config, s: State, s1: State, c: nat) returns (s2: State)
    requires ValidConfig(cfg) && Within(cfg, s, s1) && InRange(cfg, s1) && s1.phase.ClampWriting? && c < |s1.clients|
    ensures Within(cfg, s, s2) && s2.ledger.created == s1.ledger.created + NewCapacity(cfg, s1)
    ensures s2.ledger.admitted == s1.ledger.admitted + s1.tokens + NewCapacity(cfg, s1)
    ensures s2.ledger.requested == s1.ledger.requested
  {
    s2 := Finishes(cfg, s, s1, c);
    s2 := Lowers(cfg, s, s2, c, 0.0);
    WithinStep(cfg, s, s2, WriteLevel);
    StepInRange(cfg, s2, WriteLevel);
    s2 := Step(cfg, s2, WriteLevel);
    s2 := Lowers(cfg, s, s2, c, 0.0);
  }

  // The two together.

  /** After a decision, some schedule lets the clamp create tokens exactly when the new capacity is positive and below
      the level the refill would leave undisturbed, and there is any client at all. */
  lemma {:induction false} ClampCreates(cfg: Config, s: State)
    requires ValidConfig(cfg) && JustDecided(cfg, s)
    ensures (exists s' :: Within(cfg, s, s') && s'.ledger.created > s.ledger.created) <==> MayCreate(cfg, s)
  {
    if MayCreate(cfg, s) {
      assert Exec(cfg, s, []) == s;
      var s1 := ReachesClamp(cfg, s, s);
      var s2 := EmptiesTwice(cfg, s, s1, 0);
    } else {
      forall s' | Within(cfg, s, s')
        ensures s'.ledger.created <= s.ledger.created
      {
        var actions :| Legal(actions) && NoDecision(actions) && Exec(cfg, s, actions) == s';
        RunFollows(cfg, s, actions);
      }
    }
  }

  /** The same before the update: whether its clamp can create tokens, from the level, the capacity and what it will
      decide. */
  lemma {:induction false} UpdateCreates(cfg: Config, s: State, utilization: real, delta: real)
    requires ValidConfig(cfg) && InRange(cfg, s) && s.phase.Resting? && delta >= cfg.minDeltaTime
    ensures var rate := ControllerSpec.Decide(cfg, s.control, s.tokens, Clamp(utilization, 0.0, 1.0), delta).rate;
            var s1 := Step(cfg, s, Decide(utilization, delta));
            (exists s' :: Within(cfg, s1, s') && s'.ledger.created > s.ledger.created) <==>
            |s.clients| > 0 && 0.0 < Capacity(cfg, rate) < Raised(s.tokens, Times(rate, delta), s.capacity)
  {
    StepInRange(cfg, s, Decide(utilization, delta));
    ClampCreates(cfg, Step(cfg, s, Decide(utilization, delta)));
  }

  // How much room a client can make before the refill.

  /** The highest level below the present one that client `c` can bring about, or the present one if it is not about
      to take anything: then it can bring about any. */
  function LevelAfter(s: State, c: nat): real
    requires c < |s.clients|
  {
    if s.clients[c].Asking? && s.clients[c].cost <= s.tokens then s.tokens - s.clients[c].cost else s.tokens
  }

  /** From that level the refill still reaches beyond the new capacity. */
  predicate Makes(cfg: Config, s: State, c: int)
    requires ValidConfig(cfg) && s.phase.Refilling?
  {
    0 <= c < |s.clients| && NewCapacity(cfg, s) < LevelAfter(s, c) + s.phase.amount
  }

  predicate CanMakeRoom(cfg: Config, s: State)
    requires ValidConfig(cfg) && s.phase.Refilling?
  {
    exists c :: 0 <= c < |s.clients| && Makes(cfg, s, c)
  }

  /** Launches can get more than there is and is requested: the new capacity is positive and less than the old one,
      and the refill goes beyond the new one without discarding that much, be it after some client has made room, or
      as it is. */
  predicate MayExceed(cfg: Config, s: State)
    requires ValidConfig(cfg) && s.phase.Refilling?
  {
    && |s.clients| > 0 && 0.0 < NewCapacity(cfg, s) < s.capacity
    && s.phase.amount < s.capacity + NewCapacity(cfg, s)
    && (CanMakeRoom(cfg, s) ||
        NewCapacity(cfg, s) < s.tokens + s.phase.amount < s.capacity + NewCapacity(cfg, s))
  }

  predicate Lowerable(s: State, level: real) {
    exists c :: 0 <= c < |s.clients| && level <= LevelAfter(s, c)
  }

  /** The level before the refill was some client's doing, or the refill discarded what it must at the decided level. */
  ghost predicate Accounted(cfg: Config, s: State, s': State)
    requires ValidConfig(cfg) && s.phase.Refilling?
  {
    var made := CanMakeRoom(cfg, s);
    var discarded := s'.ledger.discarded - s.ledger.discarded >= s.tokens + s.phase.amount - s.capacity;
    match s'.phase
    case Refilling(_) => Lowerable(s, s'.tokens) || (s'.tokens == s.tokens && s'.clients == s.clients)
    case Resting => s'.ledger.created == s.ledger.created || made || discarded
    case ClampWriting(_, _, _) => made || discarded
    case _ => discarded || (exists c :: 0 <= c < |s.clients| && s'.tokens <= LevelAfter(s, c) + s.phase.amount)
  }

  lemma {:induction false} ClientStepAccounted(cfg: Config, s: State, s': State, a: Action)
    requires ValidConfig(cfg) && JustDecided(cfg, s) && InRange(cfg, s') && Follows(cfg, s, s') && Accounted(cfg, s, s')
    requires ByClient(a) && (a.Ask? ==> a.cost >= 0.0)
    ensures Accounted(cfg, s, Step(cfg, s', a))
  {
    var s2 := Step(cfg, s', a);
    assert s2.tokens <= s'.tokens;
    if s'.phase.Refilling? && s2 != s' {
      if Lowerable(s, s'.tokens) {
        var c: nat :| c < |s.clients| && s'.tokens <= LevelAfter(s, c);
        assert s2.tokens <= LevelAfter(s, c);
      } else {
        assert s2.tokens <= LevelAfter(s, a.c);
      }
    } else if s'.phase.PublishingRate? || s'.phase.PublishingCapacity? || s'.phase.ClampReading? {
      if c: nat :| c < |s.clients| && s'.tokens <= LevelAfter(s, c) + s.phase.amount {
        assert s2.tokens <= LevelAfter(s, c) + s.phase.amount;
      }
    }
  }

  lemma {:induction false} ControllerStepAccounted(cfg: Config, s: State, s': State, a: Action)
    requires ValidConfig(cfg) && JustDecided(cfg, s) && InRange(cfg, s') && Follows(cfg, s, s') && Accounted(cfg, s, s')
    requires !ByClient(a) && !a.Decide?
    ensures Accounted(cfg, s, Step(cfg, s', a))
  {
    var s2 := Step(cfg, s', a);
    if a.Refill? && s'.phase.Refilling? && Lowerable(s, s'.tokens) {
      var c: nat :| c < |s.clients| && s'.tokens <= LevelAfter(s, c);
      assert s2.tokens <= LevelAfter(s, c) + s.phase.amount;
    } else if a.ReadLevel? && s'.phase.ClampReading? && s2.phase.ClampWriting? {
      if c: nat :| c < |s.clients| && s'.tokens <= LevelAfter(s, c) + s.phase.amount {
        assert Makes(cfg, s, c);
      }
    }
  }

  lemma {:induction false} RunAccounted(cfg: Config, s: State, actions: seq<Action>)
    requires ValidConfig(cfg) && JustDecided(cfg, s) && Legal(actions) && NoDecision(actions)
    ensures Accounted(cfg, s, Exec(cfg, s, actions))
  {
    if actions != [] {
      var init, last := actions[..|actions| - 1], actions[|actions| - 1];
      RunFollows(cfg, s, init);
      RunAccounted(cfg, s, init);
      if ByClient(last) {
        ClientStepAccounted(cfg, s, Exec(cfg, s, init), last);
      } else {
        ControllerStepAccounted(cfg, s, Exec(cfg, s, init), last);
      }
    }
  }

  lemma {:induction false} ExcessNeeds(cfg: Config, s: State, s': State)
    requires ValidConfig(cfg) && JustDecided(cfg, s) && Within(cfg, s, s') && Excess(s, s') > 0.0
    ensures MayExceed(cfg, s)
  {
    var actions :| Legal(actions) && NoDecision(actions) && Exec(cfg, s, actions) == s';
    RunFollows(cfg, s, actions);
    RunAccounted(cfg, s, actions);
    assert s'.ledger.created > s.ledger.created && MayCreate(cfg, s);
  }

  /** After a decision, some schedule lets launches take more than the level and the requested refill exactly when
      `MayExceed` holds, whatever the clients are in the middle of. */
  lemma {:induction false} ShrinkRace(cfg: Config, s: State)
    requires ValidConfig(cfg) && JustDecided(cfg, s)
    ensures (exists s' :: Within(cfg, s, s') && Excess(s, s') > 0.0) <==> MayExceed(cfg, s)
  {
    if MayExceed(cfg, s) {
      assert Exec(cfg, s, []) == s;
      if c: nat :| c < |s.clients| && Makes(cfg, s, c) {
        var s' := RoomRun(cfg, s, c);
      } else {
        var s1 := ReachesClamp(cfg, s, s);
        var s' := EmptiesTwice(cfg, s, s1, 0);
      }
    }
    forall s' | Within(cfg, s, s') && Excess(s, s') > 0.0
      ensures MayExceed(cfg, s)
    {
      ExcessNeeds(cfg, s, s');
    }
  }

  /** The client first makes room for the refill, so that as little of it as possible is discarded. */
  lemma {:induction false} RoomRun(cfg: Config, s: State, c: nat) returns (s': State)
    requires ValidConfig(cfg) && JustDecided(cfg, s) && Makes(cfg, s, c)
    requires 0.0 < NewCapacity(cfg, s) < s.capacity && s.phase.amount < s.capacity + NewCapacity(cfg, s)
    ensures Within(cfg, s, s') && Excess(s, s') > 0.0
  {
    assert Exec(cfg, s, []) == s;
    var s1 := FinishesBefore(cfg, s, c);
    var room := Max(s.capacity - s.phase.amount, 0.0);
    var s2 := Lowers(cfg, s, s1, c, Min(s1.tokens, room));
    assert FullLevel(s2) > NewCapacity(cfg, s2);
    var s3 := ReachesClamp(cfg, s, s2);
    s' := EmptiesTwice(cfg, s, s3, c);
  }

  /** Client `c` finishes what it is at, before the refill. */
  lemma {:induction false} FinishesBefore(cfg: Config, s: State, c: nat) returns (s1: State)
    requires ValidConfig(cfg) && JustDecided(cfg, s) && c < |s.clients| && Within(cfg, s, s)
    ensures Within(cfg, s, s1) && JustDecided(cfg, s1) && |s1.clients| == |s.clients| && s1.clients[c].Idle?
    ensures s1.phase == s.phase && s1.control == s.control && s1.capacity == s.capacity
    ensures s1.tokens == LevelAfter(s, c) && s1.tokens + s1.ledger.admitted == s.tokens + s.ledger.admitted
    ensures s1.ledger.created == s.ledger.created && s1.ledger.requested == s.ledger.requested
    ensures s1.ledger.discarded == s.ledger.discarded
  {
    WithinStep(cfg, s, s, Take(c));
    StepInRange(cfg, s, Take(c));
    var s' := Step(cfg, s, Take(c));
    WithinStep(cfg, s, s', Answer(c));
    StepInRange(cfg, s', Answer(c));
    s1 := Step(cfg, s', Answer(c));
  }

  // Which configurations are exposed.

  /** If the rate's limits stand for the same capacity, no run has any slack. */
  lemma {:induction false} FlatCapacityHasNoSlack(cfg: Config, clients: nat, actions: seq<Action>)
    requires ValidConfig(cfg) && Legal(actions) && Capacity(cfg, cfg.rateMin) == Capacity(cfg, cfg.rateMax)
    ensures var s := Exec(cfg, Start(cfg, clients), actions);
            && s.ledger.slack == s.ledger.created == 0.0
            && s.ledger.granted <= s.ledger.admitted <= Initial(cfg).bucket.tokens + s.ledger.requested
            && s.capacity == Capacity(cfg, cfg.rateMin) && !s.phase.ClampWriting?
            && (s.phase.ClampReading? ==> s.phase.oldCapacity == s.capacity)
  {
    ThroughputBound(cfg, clients, actions);
    RunInRange(cfg, clients, actions);
    RunConserves(cfg, clients, actions);
    CapacityGrows(cfg, cfg.rateMin, StartRate(cfg));
    CapacityGrows(cfg, StartRate(cfg), cfg.rateMax);
    if actions != [] {
      var init := actions[..|actions| - 1];
      FlatCapacityHasNoSlack(cfg, clients, init);
      RunInRange(cfg, clients, init);
      var rate := Exec(cfg, Start(cfg, clients), init).control.rate;
      CapacityGrows(cfg, cfg.rateMin, rate);
      CapacityGrows(cfg, rate, cfg.rateMax);
    }
  }

  /** An ordinary configuration: gains that are not negative, a target below full use, a starting rate inside its limits
      whose capacity is its burst. */
  predicate Ordinary(cfg: Config)
    requires ValidConfig(cfg)
  {
    && NonNegativeGains(cfg) && cfg.target < 1.0 && cfg.rateMin < StartRate(cfg) < cfg.rateMax
    && cfg.capacityMin < Times(StartRate(cfg), cfg.burstWindow) <= cfg.capacityMax
  }

  lemma FirstShrink(cfg: Config, rate: real, delta: real)
    requires ValidConfig(cfg) && Ordinary(cfg) && cfg.rateMin <= rate < StartRate(cfg) && 0.0 < delta <= cfg.burstWindow
    ensures Times(rate, delta) <= Capacity(cfg, rate) && 0.0 < Capacity(cfg, rate) < Capacity(cfg, StartRate(cfg))
  {
    Monotone(delta, cfg.burstWindow, rate);
    Positive(StartRate(cfg) - rate, cfg.burstWindow);
    Distributes(StartRate(cfg), rate, cfg.burstWindow);
    Positive(rate, cfg.burstWindow);
  }

  /** Under every ordinary configuration and for any number of clients, launches can exceed the initial tokens and all
      requested refill during the very first update, if the device is fully used then. */
  lemma {:induction false} ClampRaceExceedsRefill(cfg: Config, clients: nat, delta: real)
    requires ValidConfig(cfg) && Ordinary(cfg) && clients > 0 && cfg.minDeltaTime <= delta <= cfg.burstWindow
    ensures exists actions :: Legal(actions) &&
              var l := Exec(cfg, Start(cfg, clients), actions).ledger;
              l.admitted > Initial(cfg).bucket.tokens + l.requested
  {
    var s0 := Start(cfg, clients);
    RunInRange(cfg, clients, []);
    assert Exec(cfg, s0, []) == s0;
    FirstUpdate(cfg, 1.0, delta);
    StepInRange(cfg, s0, Decide(1.0, delta));
    var s := Step(cfg, s0, Decide(1.0, delta));
    FirstShrink(cfg, s.control.rate, delta);
    assert s.clients[0].Idle? && Makes(cfg, s, 0);
    ShrinkRace(cfg, s);
    var s' :| Within(cfg, s, s') && Excess(s, s') > 0.0;
    var actions :| Legal(actions) && NoDecision(actions) && Exec(cfg, s, actions) == s';
    ExecFront(cfg, s0, Decide(1.0, delta), actions);
    assert Legal([Decide(1.0, delta)] + actions);
  }
}
