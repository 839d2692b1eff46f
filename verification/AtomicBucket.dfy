/** The shared token bucket under any number of clients and one controller, with `fetch_sub` and `fetch_add` atomic.

    The controller's update is the sequence of accesses it makes: read the level and decide, refill, publish the rate,
    publish the capacity, read the level for clamping, write it back. Clients act between any two of them. */
module AtomicBucket {
  import opened RealMath
  import opened ControllerSpec

  datatype Client =
    | Idle
    | Asking(cost: real)                             // in `try_acquire`, before its atomic point
    | Answered(cost: real, before: real, took: real) // past it: the level it saw and what it took

  datatype Phase =
    | Resting
    | Refilling(amount: real)
    | PublishingRate
    | PublishingCapacity
    | ClampReading(oldCapacity: real)
    | ClampWriting(oldCapacity: real, seen: real, window: real)  // `window`: taken by clients since the read

  /** Running totals: taken by launches; of that, answered; requested as refill, and the deltas it stands for; lost to
      capping and clamping; created by clamps that raised the level; taken between the read of a clamp and its write. */
  datatype Ledger = Ledger(
    admitted: real, granted: real, requested: real, elapsed: real, discarded: real, created: real, slack: real,
    clamps: nat)

  /** `atRead` and `readDelta` are the totals and the delta when the controller last read the level to decide. */
  datatype State = State(
    tokens: real, capacity: real, refillRate: real, control: Control, phase: Phase, clients: seq<Client>,
    ledger: Ledger, atRead: Ledger, readDelta: real)

  datatype Action =
    | Ask(c: nat, cost: real)
    | Take(c: nat)
    | Answer(c: nat)
    | Decide(utilization: real, delta: real)
    | Refill
    | PublishRate
    | PublishCapacity
    | ReadLevel
    | WriteLevel

  function Start(cfg: Config, clients: nat): State
    requires ValidConfig(cfg)
  {
    var System(control, bucket) := Initial(cfg);
    var ledger := Ledger(0.0, 0.0, 0.0, 0.0, 0.0, 0.0, 0.0, 0);
    State(bucket.tokens, bucket.capacity, bucket.refillRate, control, Resting, seq(clients, _ => Idle),
          ledger, ledger, 0.0)
  }

  function WithClient(s: State, c: nat, client: Client): State
    requires c < |s.clients|
  {
    s.(clients := s.clients[c := client])
  }

  predicate ByClient(a: Action) {
    a.Ask? || a.Take? || a.Answer?
  }

  /** The level changes to `tokens` on behalf of client `c`, which takes the difference. */
  function Taken(s: State, c: nat, cost: real, tokens: real): State
    requires c < |s.clients|
  {
    var took := s.tokens - tokens;
    var inWindow := s.phase.ClampWriting?;
    WithClient(s, c, Answered(cost, s.tokens, took)).(
      tokens := tokens,
      phase := if inWindow then s.phase.(window := s.phase.window + took) else s.phase,
      ledger := s.ledger.(admitted := s.ledger.admitted + took,
                          slack := if inWindow then s.ledger.slack + took else s.ledger.slack))
  }

  /** The controller's refill brings the level to `tokens`. */
  function Filled(s: State, amount: real, tokens: real): State {
    s.(tokens := tokens, phase := PublishingRate,
       ledger := s.ledger.(requested := s.ledger.requested + amount, elapsed := s.ledger.elapsed + s.readDelta,
                           discarded := s.ledger.discarded + (s.tokens + amount - tokens)))
  }

  /** `fetch_sub` in one step, and the launch's answer: it was admitted if the level it saw covered its cost. */
  function ClientStep(s: State, a: Action): State
    requires ByClient(a)
  {
    if a.c >= |s.clients| then s else
    match (a, s.clients[a.c])
    case (Ask(c, cost), Idle) => WithClient(s, c, Asking(cost))
    case (Take(c), Asking(cost)) => Taken(s, c, cost, Lowered(s.tokens, cost))
    case (Answer(c), Answered(cost, before, _)) =>
      var granted := if before >= cost then s.ledger.granted + cost else s.ledger.granted;
      WithClient(s, c, Idle).(ledger := s.ledger.(granted := granted))
    case _ => s
  }

  function ControllerStep(cfg: Config, s: State, a: Action): State
    requires ValidConfig(cfg) && !ByClient(a)
  {
    match (a, s.phase)
    case (Decide(utilization, delta), Resting) =>
      if delta < cfg.minDeltaTime then s
      else
        var control := ControllerSpec.Decide(cfg, s.control, s.tokens, Clamp(utilization, 0.0, 1.0), delta);
        s.(control := control, phase := Refilling(Times(control.rate, delta)), atRead := s.ledger, readDelta := delta)
    case (Refill, Refilling(amount)) => Filled(s, amount, Raised(s.tokens, amount, s.capacity))
    case (PublishRate, PublishingRate) => s.(refillRate := s.control.rate, phase := PublishingCapacity)
    case (PublishCapacity, PublishingCapacity) =>
      s.(capacity := Capacity(cfg, s.control.rate), phase := ClampReading(s.capacity))
    case (ReadLevel, ClampReading(was)) =>
      s.(phase := if s.tokens > Capacity(cfg, s.control.rate) then ClampWriting(was, s.tokens, 0.0) else Resting)
    case (WriteLevel, ClampWriting(_, _, _)) =>
      var tokens := Capacity(cfg, s.control.rate);
      s.(tokens := tokens, phase := Resting,
         ledger := s.ledger.(discarded := s.ledger.discarded + Max(s.tokens - tokens, 0.0),
                             created := s.ledger.created + Max(tokens - s.tokens, 0.0),
                             clamps := s.ledger.clamps + 1))
    case _ => s
  }

  /** One step of one client or of the controller; an action that is not possible changes nothing. */
  function Step(cfg: Config, s: State, a: Action): State
    requires ValidConfig(cfg)
  {
    if ByClient(a) then ClientStep(s, a) else ControllerStep(cfg, s, a)
  }

  function Exec(cfg: Config, s: State, actions: seq<Action>): State
    requires ValidConfig(cfg)
  {
    if actions == [] then s
    else Step(cfg, Exec(cfg, s, actions[..|actions| - 1]), actions[|actions| - 1])
  }

  predicate Legal(actions: seq<Action>) {
    forall k :: 0 <= k < |actions| && actions[k].Ask? ==> actions[k].cost >= 0.0
  }

  // Without interference the steps are the calls.

  function SystemOf(s: State): System {
    System(s.control, Bucket(true, s.tokens, s.capacity, s.refillRate, 0.0))
  }

  lemma ExecFront(cfg: Config, s: State, a: Action, rest: seq<Action>)
    requires ValidConfig(cfg)
    ensures Exec(cfg, s, [a] + rest) == Exec(cfg, Step(cfg, s, a), rest)
  {
    if rest == [] {
      assert [a] + rest == [a] && [a][..0] == [];
    } else {
      ExecFront(cfg, s, a, rest[..|rest| - 1]);
      assert ([a] + rest)[..|rest|] == [a] + rest[..|rest| - 1];
    }
  }

  const UPDATE: seq<Action> := [Refill, PublishRate, PublishCapacity, ReadLevel, WriteLevel]

  lemma UpdateSteps(cfg: Config, s: State)
    requires ValidConfig(cfg)
    ensures Exec(cfg, s, UPDATE) ==
            var published := Step(cfg, Step(cfg, Step(cfg, s, Refill), PublishRate), PublishCapacity);
            Step(cfg, Step(cfg, published, ReadLevel), WriteLevel)
  {
    assert UPDATE[..4] + [WriteLevel] == UPDATE && UPDATE[..3] + [ReadLevel] == UPDATE[..4];
    assert UPDATE[..2] + [PublishCapacity] == UPDATE[..3] && [Refill] + [PublishRate] == UPDATE[..2];
    ExecBack(cfg, s, UPDATE[..4], WriteLevel);
    ExecBack(cfg, s, UPDATE[..3], ReadLevel);
    ExecBack(cfg, s, UPDATE[..2], PublishCapacity);
    ExecBack(cfg, s, [Refill], PublishRate);
    ExecBack(cfg, s, [], Refill);
    assert [] + [Refill] == [Refill];
  }

  lemma ExecBack(cfg: Config, s: State, earlier: seq<Action>, a: Action)
    requires ValidConfig(cfg)
    ensures Exec(cfg, s, earlier + [a]) == Step(cfg, Exec(cfg, s, earlier), a)
  {
    assert (earlier + [a])[..|earlier|] == earlier;
  }

  lemma FinishesUpdate(cfg: Config, s: State, delta: real)
    requires ValidConfig(cfg) && s.phase == Refilling(Times(s.control.rate, delta))
    ensures var s' := Exec(cfg, s, UPDATE);
            && s'.phase.Resting? && s'.control == s.control && s'.clients == s.clients
            && SystemOf(s').bucket == Driven(cfg, SystemOf(s).bucket, s.control.rate, delta)
  {
    UpdateSteps(cfg, s);
  }

  /** An update nobody interrupts is the update of the controller on its own. */
  lemma {:induction false} UninterruptedUpdate(cfg: Config, s: State, utilization: real, delta: real)
    requires ValidConfig(cfg) && s.phase.Resting? && delta >= cfg.minDeltaTime
    ensures var s' := Exec(cfg, s, [Decide(utilization, delta)] + UPDATE);
            && SystemOf(s') == Updated(cfg, SystemOf(s), utilization, delta)
            && s'.phase.Resting? && s'.clients == s.clients
  {
    ExecFront(cfg, s, Decide(utilization, delta), UPDATE);
    FinishesUpdate(cfg, Step(cfg, s, Decide(utilization, delta)), delta);
  }

  /** A launch nobody interrupts takes its cost from the bucket if it is there, and is granted exactly then. */
  lemma {:induction false} UninterruptedLaunch(cfg: Config, s: State, c: nat, cost: real)
    requires ValidConfig(cfg) && c < |s.clients| && s.clients[c].Idle? && cost >= 0.0
    ensures var s' := Exec(cfg, s, [Ask(c, cost), Take(c), Answer(c)]);
            && SystemOf(s') == SystemOf(s).(bucket := Consumed(SystemOf(s).bucket, cost)) && s'.clients == s.clients
            && s'.ledger.granted == s.ledger.granted + (if s.tokens >= cost then cost else 0.0)
  {
    assert [Ask(c, cost), Take(c)] + [Answer(c)] == [Ask(c, cost), Take(c), Answer(c)];
    assert [Ask(c, cost)] + [Take(c)] == [Ask(c, cost), Take(c)] && [] + [Ask(c, cost)] == [Ask(c, cost)];
    ExecBack(cfg, s, [Ask(c, cost), Take(c)], Answer(c));
    ExecBack(cfg, s, [Ask(c, cost)], Take(c));
    ExecBack(cfg, s, [], Ask(c, cost));
  }

  // The level stays within the capacities.

  predicate ClientFits(client: Client) {
    match client
    case Idle => true
    case Asking(cost) => cost >= 0.0
    case Answered(cost, before, took) => cost >= 0.0 && took == if before >= cost then cost else 0.0
  }

  /** Never negative; at rest at most the published capacity; during an update at most the larger of the old and the new
      one. A client that will be told its launch is admitted has taken its own cost, and any other has taken nothing. */
  predicate InRange(cfg: Config, s: State)
    requires ValidConfig(cfg)
  {
    && 0.0 <= s.tokens
    && cfg.rateMin <= s.control.rate <= cfg.rateMax
    && cfg.capacityMin <= s.capacity <= cfg.capacityMax
    && (forall c :: 0 <= c < |s.clients| ==> ClientFits(s.clients[c]))
    && match s.phase
       case Resting => s.tokens <= s.capacity == Capacity(cfg, s.control.rate) && s.refillRate == s.control.rate
       case Refilling(amount) => s.tokens <= s.capacity && 0.0 <= amount == Times(s.control.rate, s.readDelta)
       case PublishingRate => s.tokens <= s.capacity
       case PublishingCapacity => s.tokens <= s.capacity && s.refillRate == s.control.rate
       case ClampReading(was) =>
         && s.tokens <= was <= cfg.capacityMax && s.refillRate == s.control.rate
         && s.capacity == Capacity(cfg, s.control.rate)
       case ClampWriting(was, seen, window) =>
         && s.tokens == seen - window && 0.0 <= window && s.capacity < seen <= was <= cfg.capacityMax
         && s.refillRate == s.control.rate && s.capacity == Capacity(cfg, s.control.rate)
  }

  lemma {:induction false} StepInRange(cfg: Config, s: State, a: Action)
    requires ValidConfig(cfg) && InRange(cfg, s) && (a.Ask? ==> a.cost >= 0.0)
    ensures InRange(cfg, Step(cfg, s, a))
  {
    if a.Decide? && s.phase.Resting? && a.delta >= cfg.minDeltaTime {
      var control := ControllerSpec.Decide(cfg, s.control, s.tokens, Clamp(a.utilization, 0.0, 1.0), a.delta);
      NonNegative(control.rate, a.delta);
    }
  }

  lemma {:induction false} RunInRange(cfg: Config, clients: nat, actions: seq<Action>)
    requires ValidConfig(cfg) && Legal(actions)
    ensures InRange(cfg, Exec(cfg, Start(cfg, clients), actions))
  {
    if actions != [] {
      RunInRange(cfg, clients, actions[..|actions| - 1]);
      StepInRange(cfg, Exec(cfg, Start(cfg, clients), actions[..|actions| - 1]), actions[|actions| - 1]);
    }
  }

  // Tokens are conserved.

  function Held(client: Client): real {
    if client.Answered? then client.took else 0.0
  }

  /** What clients have taken and not yet been told. */
  function InFlight(clients: seq<Client>): real {
    if clients == [] then 0.0 else InFlight(clients[..|clients| - 1]) + Held(clients[|clients| - 1])
  }

  lemma {:induction false} InFlightUpdate(clients: seq<Client>, c: nat, client: Client)
    requires c < |clients|
    ensures InFlight(clients[c := client]) == InFlight(clients) - Held(clients[c]) + Held(client)
  {
    var last := |clients| - 1;
    if c < last {
      InFlightUpdate(clients[..last], c, client);
      assert clients[c := client][..last] == clients[..last][c := client];
    } else {
      assert clients[c := client][..last] == clients[..last];
    }
  }

  lemma {:induction false} InFlightNonNegative(clients: seq<Client>)
    requires forall c :: 0 <= c < |clients| ==> ClientFits(clients[c])
    ensures InFlight(clients) >= 0.0
  {
    if clients != [] {
      InFlightNonNegative(clients[..|clients| - 1]);
    }
  }

  lemma {:induction false} NothingInFlight(n: nat)
    ensures InFlight(seq(n, _ => Idle)) == 0.0
  {
    if n > 0 {
      NothingInFlight(n - 1);
      assert seq(n, _ => Idle)[..n - 1] == seq(n - 1, _ => Idle);
    }
  }

  /** What came in is what went out plus what is left. Tokens come from nowhere only in a clamp that writes back more
      than is there, and then no more than was taken since it read. */
  ghost predicate Conserved(initial: real, s: State) {
    var l := s.ledger;
    && s.tokens + l.admitted + l.discarded == initial + l.requested + l.created
    && l.admitted == l.granted + InFlight(s.clients)
    && 0.0 <= l.discarded
    && 0.0 <= l.created <= l.slack - (if s.phase.ClampWriting? then s.phase.window else 0.0)
  }

  lemma {:induction false} StepConserves(cfg: Config, initial: real, s: State, a: Action)
    requires ValidConfig(cfg) && InRange(cfg, s) && Conserved(initial, s)
    ensures Conserved(initial, Step(cfg, s, a))
  {
    if ByClient(a) && a.c < |s.clients| && Step(cfg, s, a) != s {
      InFlightUpdate(s.clients, a.c, Step(cfg, s, a).clients[a.c]);
    }
  }

  lemma {:induction false} RunConserves(cfg: Config, clients: nat, actions: seq<Action>)
    requires ValidConfig(cfg) && Legal(actions)
    ensures Conserved(Initial(cfg).bucket.tokens, Exec(cfg, Start(cfg, clients), actions))
  {
    if actions == [] {
      NothingInFlight(clients);
    } else {
      RunInRange(cfg, clients, actions[..|actions| - 1]);
      RunConserves(cfg, clients, actions[..|actions| - 1]);
      var before := Exec(cfg, Start(cfg, clients), actions[..|actions| - 1]);
      StepConserves(cfg, Initial(cfg).bucket.tokens, before, actions[|actions| - 1]);
    }
  }

  /** In every interleaving of any number of clients with the controller, launches are granted no more than the initial
      tokens, the requested refill and what clamps created, which is no more than the slack. */
  lemma {:induction false} ThroughputBound(cfg: Config, clients: nat, actions: seq<Action>)
    requires ValidConfig(cfg) && Legal(actions)
    ensures var l := Exec(cfg, Start(cfg, clients), actions).ledger;
            && l.granted <= l.admitted <= Initial(cfg).bucket.tokens + l.requested + l.created
            && l.created <= l.slack
  {
    RunInRange(cfg, clients, actions);
    RunConserves(cfg, clients, actions);
    InFlightNonNegative(Exec(cfg, Start(cfg, clients), actions).clients);
  }

  /** The refill is at most the greatest rate over the time of the updates, and at least the least rate over it. */
  predicate RefillBounded(cfg: Config, l: Ledger) {
    Times(cfg.rateMin, l.elapsed) <= l.requested <= Times(cfg.rateMax, l.elapsed)
  }

  lemma {:induction false} StepBoundsRefill(cfg: Config, s: State, a: Action)
    requires ValidConfig(cfg) && InRange(cfg, s) && RefillBounded(cfg, s.ledger) && s.readDelta >= 0.0
    ensures RefillBounded(cfg, Step(cfg, s, a).ledger) && Step(cfg, s, a).readDelta >= 0.0
  {
    if a.Refill? && s.phase.Refilling? {
      RateOverTime(cfg.rateMin, cfg.rateMax, s.ledger.elapsed, s.ledger.requested, s.control.rate, s.readDelta);
    }
  }

  lemma {:induction false} RunBoundsRefill(cfg: Config, clients: nat, actions: seq<Action>)
    requires ValidConfig(cfg) && Legal(actions)
    ensures RefillBounded(cfg, Exec(cfg, Start(cfg, clients), actions).ledger)
    ensures Exec(cfg, Start(cfg, clients), actions).readDelta >= 0.0
  {
    if actions == [] {
      Unit(cfg.rateMin);
      Unit(cfg.rateMax);
    } else {
      RunInRange(cfg, clients, actions[..|actions| - 1]);
      RunBoundsRefill(cfg, clients, actions[..|actions| - 1]);
      StepBoundsRefill(cfg, Exec(cfg, Start(cfg, clients), actions[..|actions| - 1]), actions[|actions| - 1]);
    }
  }

  /** So over any run launches are granted at most a full bucket, the greatest rate over the elapsed time, and the
      slack. */
  lemma {:induction false} LongRunRate(cfg: Config, clients: nat, actions: seq<Action>)
    requires ValidConfig(cfg) && Legal(actions)
    ensures var l := Exec(cfg, Start(cfg, clients), actions).ledger;
            l.granted <= cfg.capacityMax + Times(cfg.rateMax, l.elapsed) + l.slack
  {
    ThroughputBound(cfg, clients, actions);
    RunBoundsRefill(cfg, clients, actions);
  }

  // How much slack there is.

  /** No client takes anything between the read of a clamp and its write. */
  predicate AtomicClamps(cfg: Config, s: State, actions: seq<Action>)
    requires ValidConfig(cfg)
  {
    forall k :: 0 <= k < |actions| && actions[k].Take? && Exec(cfg, s, actions[..k]).phase.ClampWriting? ==>
      Exec(cfg, s, actions[..k + 1]).tokens == Exec(cfg, s, actions[..k]).tokens
  }

  lemma {:induction false} NoSlack(cfg: Config, clients: nat, actions: seq<Action>)
    requires ValidConfig(cfg) && AtomicClamps(cfg, Start(cfg, clients), actions)
    ensures Exec(cfg, Start(cfg, clients), actions).ledger.slack == 0.0
  {
    if actions != [] {
      var init := actions[..|actions| - 1];
      assert forall k :: 0 <= k <= |init| ==> init[..k] == actions[..k];
      NoSlack(cfg, clients, init);
      assert actions[..|actions|] == actions;
    }
  }

  /** If clamping is atomic there is no slack, and nothing is ever created. */
  lemma {:induction false} AtomicClampBound(cfg: Config, clients: nat, actions: seq<Action>)
    requires ValidConfig(cfg) && Legal(actions) && AtomicClamps(cfg, Start(cfg, clients), actions)
    ensures var l := Exec(cfg, Start(cfg, clients), actions).ledger;
            l.granted <= l.admitted <= Initial(cfg).bucket.tokens + l.requested && l.created == 0.0
  {
    ThroughputBound(cfg, clients, actions);
    RunInRange(cfg, clients, actions);
    RunConserves(cfg, clients, actions);
    NoSlack(cfg, clients, actions);
  }

  /** What clamps created is at most the greatest capacity for each that wrote. */
  ghost predicate CreationBounded(cfg: Config, s: State) {
    s.ledger.created <= Times(s.ledger.clamps as real, cfg.capacityMax)
  }

  lemma {:induction false} RunBoundsCreation(cfg: Config, clients: nat, actions: seq<Action>)
    requires ValidConfig(cfg) && Legal(actions)
    ensures CreationBounded(cfg, Exec(cfg, Start(cfg, clients), actions))
  {
    if actions == [] {
      Unit(cfg.capacityMax);
    } else {
      var before := Exec(cfg, Start(cfg, clients), actions[..|actions| - 1]);
      RunInRange(cfg, clients, actions[..|actions| - 1]);
      RunBoundsCreation(cfg, clients, actions[..|actions| - 1]);
      Distributes(before.ledger.clamps as real, 1.0, cfg.capacityMax);
      Unit(cfg.capacityMax);
    }
  }

  // What the controller's drain estimate means.

  /** The level is what the last read saw, plus the refill once it happened, less what was discarded and taken since,
      plus what a clamp created since. */
  predicate LevelExplained(s: State) {
    var l, r := s.ledger, s.atRead;
    && s.tokens == s.control.lastLevel + (l.requested - r.requested) - (l.discarded - r.discarded)
                   - (l.admitted - r.admitted) + (l.created - r.created)
    && l.requested - r.requested == (if s.phase.Refilling? then 0.0 else Times(s.control.rate, s.readDelta))
    && 0.0 <= r.created <= l.created && r.discarded <= l.discarded && r.admitted <= l.admitted
  }

  lemma {:induction false} StepExplainsLevel(cfg: Config, s: State, a: Action)
    requires ValidConfig(cfg) && InRange(cfg, s) && LevelExplained(s) && s.ledger.created >= 0.0
    ensures LevelExplained(Step(cfg, s, a))
  {
  }

  lemma {:induction false} RunExplainsLevel(cfg: Config, clients: nat, actions: seq<Action>)
    requires ValidConfig(cfg) && Legal(actions)
    ensures LevelExplained(Exec(cfg, Start(cfg, clients), actions))
  {
    if actions == [] {
      Unit(StartRate(cfg));
    } else {
      RunInRange(cfg, clients, actions[..|actions| - 1]);
      RunExplainsLevel(cfg, clients, actions[..|actions| - 1]);
      RunConserves(cfg, clients, actions[..|actions| - 1]);
      StepExplainsLevel(cfg, Exec(cfg, Start(cfg, clients), actions[..|actions| - 1]), actions[|actions| - 1]);
    }
  }

  /** The drain an update would estimate now, over its delta: what clients took and what was discarded since the last
      read, less what clamps created, plus the previous rate over the growth of the delta; never less than 0. */
  lemma {:induction false} DrainIdentity(cfg: Config, clients: nat, actions: seq<Action>, delta: real)
    requires ValidConfig(cfg) && Legal(actions) && delta > 0.0
    requires Exec(cfg, Start(cfg, clients), actions).phase.Resting?
    ensures var s := Exec(cfg, Start(cfg, clients), actions);
            Times(DrainRate(s.control, s.tokens, delta), delta) ==
            Max(0.0, (s.ledger.admitted - s.atRead.admitted) + (s.ledger.discarded - s.atRead.discarded)
                     - (s.ledger.created - s.atRead.created) + Times(s.control.rate, delta - s.readDelta))
  {
    RunExplainsLevel(cfg, clients, actions);
    var s := Exec(cfg, Start(cfg, clients), actions);
    Distributes(delta, s.readDelta, s.control.rate);
    ScaledMax(s.control.lastLevel + Times(s.control.rate, delta) - s.tokens, delta);
  }

  /** With atomic clamps and deltas that do not shrink, the estimate never falls short of what clients took. */
  lemma {:induction false} DrainCoversLaunches(cfg: Config, clients: nat, actions: seq<Action>, delta: real)
    requires ValidConfig(cfg) && Legal(actions) && AtomicClamps(cfg, Start(cfg, clients), actions)
    requires Exec(cfg, Start(cfg, clients), actions).phase.Resting?
    requires delta > 0.0 && delta >= Exec(cfg, Start(cfg, clients), actions).readDelta
    ensures var s := Exec(cfg, Start(cfg, clients), actions);
            Times(DrainRate(s.control, s.tokens, delta), delta) >= s.ledger.admitted - s.atRead.admitted
  {
    var s := Exec(cfg, Start(cfg, clients), actions);
    DrainIdentity(cfg, clients, actions, delta);
    RunExplainsLevel(cfg, clients, actions);
    AtomicClampBound(cfg, clients, actions);
    RunInRange(cfg, clients, actions);
    NonNegative(s.control.rate, delta - s.readDelta);
  }
}
