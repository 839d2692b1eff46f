/** The shared token bucket as the code accesses it: `fetch_sub` and `fetch_add` are loops of a load and a
    compare-exchange, and every other access is one atomic operation. Refines AtomicBucket. */
module CasBucket {
  import opened Wrappers
  import opened RealMath
  import opened ControllerSpec
  import opened AtomicBucket

  /** Where the controller is in its `fetch_add`. */
  datatype AddLoop = Outside | Loading(capacity: real) | Swapping(capacity: real, seen: real)

  /** The shared memory and program counters, and what each loop has in its local variables. */
  datatype CasState = CasState(shared: State, loaded: seq<Option<real>>, add: AddLoop)

  datatype CasAction =
    | Load(c: nat)
    | Swap(c: nat)
    | LoadCapacity
    | LoadLevel
    | SwapLevel
    | Same(a: Action)   // an access that is atomic in the code; not `Take` and not `Refill`

  function CasStart(cfg: Config, clients: nat): CasState
    requires ValidConfig(cfg)
  {
    CasState(Start(cfg, clients), seq(clients, _ => None), Outside)
  }

  predicate InLoop(s: CasState, c: nat) {
    c < |s.shared.clients| == |s.loaded| && s.shared.clients[c].Asking?
  }

  function LoadStep(s: CasState, c: nat): CasState
    requires InLoop(s, c)
  {
    var cost, current := s.shared.clients[c].cost, s.shared.tokens;
    if s.loaded[c].Some? then s
    else if current < cost then s.(shared := WithClient(s.shared, c, Answered(cost, current, 0.0)))
    else s.(loaded := s.loaded[c := Some(current)])
  }

  function SwapStep(s: CasState, c: nat): CasState
    requires InLoop(s, c)
  {
    match s.loaded[c]
    case None => s
    case Some(current) =>
      var retry := s.(loaded := s.loaded[c := None]);
      if s.shared.tokens != current then retry
      else retry.(shared := Taken(s.shared, c, s.shared.clients[c].cost, Max(current - s.shared.clients[c].cost, 0.0)))
  }

  function CasStep(cfg: Config, s: CasState, a: CasAction): CasState
    requires ValidConfig(cfg)
  {
    match (a, s.add)
    case (Load(c), _) => if InLoop(s, c) then LoadStep(s, c) else s
    case (Swap(c), _) => if InLoop(s, c) then SwapStep(s, c) else s
    case (LoadCapacity, Outside) => if s.shared.phase.Refilling? then s.(add := Loading(s.shared.capacity)) else s
    case (LoadLevel, Loading(capacity)) => s.(add := Swapping(capacity, s.shared.tokens))
    case (SwapLevel, Swapping(capacity, current)) =>
      if s.shared.tokens != current || !s.shared.phase.Refilling? then s.(add := Loading(capacity))
      else
        var amount := s.shared.phase.amount;
        s.(add := Outside, shared := Filled(s.shared, amount, Max(Min(current + amount, capacity), 0.0)))
    case (Same(b), _) => if b.Take? || b.Refill? then s else s.(shared := Step(cfg, s.shared, b))
    case _ => s
  }

  function CasExec(cfg: Config, s: CasState, actions: seq<CasAction>): CasState
    requires ValidConfig(cfg)
  {
    if actions == [] then s
    else CasStep(cfg, CasExec(cfg, s, actions[..|actions| - 1]), actions[|actions| - 1])
  }

  predicate CasLegal(actions: seq<CasAction>) {
    forall k :: 0 <= k < |actions| && actions[k].Same? && actions[k].a.Ask? ==> actions[k].a.cost >= 0.0
  }

  // What the loops know.

  /** A level in a client's local variable covers its cost, and the controller's capacity is still the published one. */
  predicate LocalsFit(s: CasState) {
    && |s.loaded| == |s.shared.clients|
    && (forall c :: 0 <= c < |s.loaded| && s.loaded[c].Some? ==>
          s.shared.clients[c].Asking? && s.loaded[c].value >= s.shared.clients[c].cost)
    && (s.add != Outside ==> s.shared.phase.Refilling? && s.add.capacity == s.shared.capacity)
  }

  lemma {:induction false} StepLocalsFit(cfg: Config, s: CasState, a: CasAction)
    requires ValidConfig(cfg) && LocalsFit(s)
    ensures LocalsFit(CasStep(cfg, s, a))
  {
  }

  lemma {:induction false} RunLocalsFit(cfg: Config, s: CasState, actions: seq<CasAction>)
    requires ValidConfig(cfg) && LocalsFit(s)
    ensures LocalsFit(CasExec(cfg, s, actions))
  {
    if actions != [] {
      RunLocalsFit(cfg, s, actions[..|actions| - 1]);
      StepLocalsFit(cfg, CasExec(cfg, s, actions[..|actions| - 1]), actions[|actions| - 1]);
    }
  }

  // Refinement.

  /** The atomic action a concrete step stands for: a load that finds too little or a successful compare-exchange is the
      whole `fetch_sub`; every other load, and every failed compare-exchange, is nothing. */
  function Meaning(s: CasState, a: CasAction): seq<Action> {
    match a
    case Load(c) =>
      if InLoop(s, c) && s.loaded[c].None? && s.shared.tokens < s.shared.clients[c].cost then [Take(c)] else []
    case Swap(c) => if InLoop(s, c) && s.loaded[c] == Some(s.shared.tokens) then [Take(c)] else []
    case SwapLevel =>
      if s.add.Swapping? && s.add.seen == s.shared.tokens && s.shared.phase.Refilling? then [Refill] else []
    case Same(b) => if b.Take? || b.Refill? then [] else [b]
    case _ => []
  }

  lemma {:induction false} StepRefines(cfg: Config, s: CasState, a: CasAction)
    requires ValidConfig(cfg) && LocalsFit(s)
    ensures Exec(cfg, s.shared, Meaning(s, a)) == CasStep(cfg, s, a).shared
  {
  }

  /** The atomic run a concrete run stands for. */
  function MeaningOfRun(cfg: Config, s: CasState, actions: seq<CasAction>): seq<Action>
    requires ValidConfig(cfg)
  {
    if actions == [] then []
    else
      var init := actions[..|actions| - 1];
      MeaningOfRun(cfg, s, init) + Meaning(CasExec(cfg, s, init), actions[|actions| - 1])
  }

  lemma {:induction false} ExecAppend(cfg: Config, s: State, first: seq<Action>, rest: seq<Action>)
    requires ValidConfig(cfg)
    ensures Exec(cfg, s, first + rest) == Exec(cfg, Exec(cfg, s, first), rest)
  {
    if rest == [] {
      assert first + rest == first;
    } else {
      ExecAppend(cfg, s, first, rest[..|rest| - 1]);
      assert (first + rest)[..|first + rest| - 1] == first + rest[..|rest| - 1];
    }
  }

  /** Every interleaving of loads and compare-exchanges has the effect of one in which each completed `fetch_sub` and
      `fetch_add` is a single step. */
  lemma {:induction false} RunRefines(cfg: Config, clients: nat, actions: seq<CasAction>)
    requires ValidConfig(cfg)
    ensures CasExec(cfg, CasStart(cfg, clients), actions).shared ==
            Exec(cfg, Start(cfg, clients), MeaningOfRun(cfg, CasStart(cfg, clients), actions))
  {
    if actions != [] {
      var s0, init, last := CasStart(cfg, clients), actions[..|actions| - 1], actions[|actions| - 1];
      RunRefines(cfg, clients, init);
      RunLocalsFit(cfg, CasStart(cfg, clients), init);
      StepRefines(cfg, CasExec(cfg, s0, init), last);
      ExecAppend(cfg, Start(cfg, clients), MeaningOfRun(cfg, s0, init), Meaning(CasExec(cfg, s0, init), last));
    }
  }

  lemma {:induction false} MeaningIsLegal(cfg: Config, s: CasState, actions: seq<CasAction>)
    requires ValidConfig(cfg) && CasLegal(actions)
    ensures Legal(MeaningOfRun(cfg, s, actions))
  {
    if actions != [] {
      MeaningIsLegal(cfg, s, actions[..|actions| - 1]);
    }
  }

  /** So the bound on what launches are granted holds of the loops. */
  lemma {:induction false} CasThroughputBound(cfg: Config, clients: nat, actions: seq<CasAction>)
    requires ValidConfig(cfg) && CasLegal(actions)
    ensures var s := CasExec(cfg, CasStart(cfg, clients), actions).shared;
            && InRange(cfg, s)
            && s.ledger.granted <= s.ledger.admitted <= Initial(cfg).bucket.tokens + s.ledger.requested + s.ledger.slack
            && s.ledger.granted <= cfg.capacityMax + Times(cfg.rateMax, s.ledger.elapsed) + s.ledger.slack
  {
    var run := MeaningOfRun(cfg, CasStart(cfg, clients), actions);
    RunRefines(cfg, clients, actions);
    MeaningIsLegal(cfg, CasStart(cfg, clients), actions);
    RunInRange(cfg, clients, run);
    ThroughputBound(cfg, clients, run);
    LongRunRate(cfg, clients, run);
  }

  /** No compare-exchange of a client takes anything between the read of a clamp and its write. */
  predicate AtomicCasClamps(cfg: Config, s: CasState, actions: seq<CasAction>)
    requires ValidConfig(cfg)
  {
    forall k :: 0 <= k < |actions| && actions[k].Swap? && CasExec(cfg, s, actions[..k]).shared.phase.ClampWriting? ==>
      CasExec(cfg, s, actions[..k + 1]).shared.tokens == CasExec(cfg, s, actions[..k]).shared.tokens
  }

  /** Only a compare-exchange that takes something adds to the slack. */
  lemma StepSlack(cfg: Config, s: CasState, a: CasAction)
    requires ValidConfig(cfg)
    requires a.Swap? && s.shared.phase.ClampWriting? ==> CasStep(cfg, s, a).shared.tokens == s.shared.tokens
    ensures CasStep(cfg, s, a).shared.ledger.slack == s.shared.ledger.slack
  {
  }

  lemma {:induction false} CasNoSlack(cfg: Config, clients: nat, actions: seq<CasAction>)
    requires ValidConfig(cfg) && AtomicCasClamps(cfg, CasStart(cfg, clients), actions)
    ensures CasExec(cfg, CasStart(cfg, clients), actions).shared.ledger.slack == 0.0
  {
    if actions != [] {
      var n, init := |actions| - 1, actions[..|actions| - 1];
      assert forall k :: 0 <= k <= n ==> init[..k] == actions[..k];
      CasNoSlack(cfg, clients, init);
      assert actions[..n + 1] == actions;
      StepSlack(cfg, CasExec(cfg, CasStart(cfg, clients), init), actions[n]);
    }
  }

  /** So does the bound without slack, if clamping is atomic. */
  lemma {:induction false} CasAtomicClampBound(cfg: Config, clients: nat, actions: seq<CasAction>)
    requires ValidConfig(cfg) && CasLegal(actions) && AtomicCasClamps(cfg, CasStart(cfg, clients), actions)
    ensures var l := CasExec(cfg, CasStart(cfg, clients), actions).shared.ledger;
            l.granted <= l.admitted <= Initial(cfg).bucket.tokens + l.requested && l.created == 0.0
  {
    var run := MeaningOfRun(cfg, CasStart(cfg, clients), actions);
    RunRefines(cfg, clients, actions);
    MeaningIsLegal(cfg, CasStart(cfg, clients), actions);
    ThroughputBound(cfg, clients, run);
    RunInRange(cfg, clients, run);
    RunConserves(cfg, clients, run);
    CasNoSlack(cfg, clients, actions);
  }

  // Each call takes effect at one point.

  /** The shared states of a run, from the first to the last. */
  function Trace(cfg: Config, s: CasState, actions: seq<CasAction>): (t: seq<State>)
    requires ValidConfig(cfg)
    ensures |t| == |actions| + 1 && t[|actions|] == CasExec(cfg, s, actions).shared
  {
    if actions == [] then [s.shared] else Trace(cfg, s, actions[..|actions| - 1]) + [CasExec(cfg, s, actions).shared]
  }

  predicate ClientIs(s: State, c: nat, client: Client) {
    c < |s.clients| && s.clients[c] == client
  }

  /** The call of client `c` was step `called`, and it has been asking from then on up to state `until`. */
  ghost predicate AskingBetween(t: seq<State>, actions: seq<CasAction>, c: nat, cost: real, called: int, until: int) {
    && 0 <= called < until < |t| && called < |actions| && actions[called] == Same(Ask(c, cost))
    && forall k :: called < k <= until ==> ClientIs(t[k], c, Asking(cost))
  }

  /** Step `point` is where its `fetch_sub` took effect: it saw the level and lowered it, and has its answer since. */
  ghost predicate TookEffect(t: seq<State>, c: nat, answer: Client, point: int)
    requires answer.Answered?
  {
    && 0 <= point < |t| - 1
    && (forall k :: point < k < |t| ==> ClientIs(t[k], c, answer))
    && t[point].tokens == answer.before
    && t[point + 1].tokens == Lowered(answer.before, answer.cost)
  }

  /** Both stay true of a longer run. */
  lemma EffectStays(t: seq<State>, last: State, c: nat, answer: Client, point: int)
    requires answer.Answered? && TookEffect(t, c, answer, point) && ClientIs(last, c, answer)
    ensures TookEffect(t + [last], c, answer, point)
  {
  }

  lemma AskingStays(t: seq<State>, last: State, actions: seq<CasAction>, a: CasAction,
                    c: nat, cost: real, called: int, until: int)
    requires AskingBetween(t, actions, c, cost, called, until)
    ensures AskingBetween(t + [last], actions + [a], c, cost, called, until)
  {
  }

  /** What one step does to one client. */
  lemma ClientStepCases(cfg: Config, s: CasState, a: CasAction, c: nat)
    requires ValidConfig(cfg) && LocalsFit(s) && c < |CasStep(cfg, s, a).shared.clients|
    ensures c < |s.shared.clients|
    ensures var was, now, s' := s.shared.clients[c], CasStep(cfg, s, a).shared.clients[c], CasStep(cfg, s, a).shared;
            && (now.Asking? && now != was ==> a == Same(Ask(c, now.cost)))
            && (now.Answered? && now != was ==>
                  && was == Asking(now.cost) && now.before == s.shared.tokens
                  && s'.tokens == Lowered(s.shared.tokens, now.cost))
  {
  }

  predicate AllIdle(s: CasState) {
    forall c :: 0 <= c < |s.shared.clients| ==> s.shared.clients[c].Idle?
  }

  /** A client that is asking was called, and has been asking since. */
  lemma {:induction false} CallOf(cfg: Config, s0: CasState, actions: seq<CasAction>, c: nat, cost: real)
    returns (called: int)
    requires ValidConfig(cfg) && LocalsFit(s0) && AllIdle(s0)
    requires ClientIs(CasExec(cfg, s0, actions).shared, c, Asking(cost))
    ensures AskingBetween(Trace(cfg, s0, actions), actions, c, cost, called, |actions|)
  {
    if actions == [] {
      assert false;
    } else {
      var n, init := |actions| - 1, actions[..|actions| - 1];
      var before := CasExec(cfg, s0, init);
      RunLocalsFit(cfg, s0, init);
      ClientStepCases(cfg, before, actions[n], c);
      if before.shared.clients[c] == Asking(cost) {
        called := CallOf(cfg, s0, init, c, cost);
        assert init + [actions[n]] == actions;
        AskingStays(Trace(cfg, s0, init), CasExec(cfg, s0, actions).shared, init, actions[n], c, cost, called, n);
      } else {
        called := n;
      }
    }
  }

  /** Every answered `fetch_sub` took effect at one step after its call: there the level it returns was the level, and
      it became what subtracting the cost leaves. */
  lemma {:induction false} Linearizes(cfg: Config, s0: CasState, actions: seq<CasAction>, c: nat, answer: Client)
    returns (called: int, point: int)
    requires ValidConfig(cfg) && LocalsFit(s0) && AllIdle(s0)
    requires ClientIs(CasExec(cfg, s0, actions).shared, c, answer) && answer.Answered?
    ensures TookEffect(Trace(cfg, s0, actions), c, answer, point)
    ensures AskingBetween(Trace(cfg, s0, actions), actions, c, answer.cost, called, point)
  {
    if actions == [] {
      assert false;
    } else {
      var n, init := |actions| - 1, actions[..|actions| - 1];
      var before := CasExec(cfg, s0, init);
      RunLocalsFit(cfg, s0, init);
      ClientStepCases(cfg, before, actions[n], c);
      var t, last := Trace(cfg, s0, init), CasExec(cfg, s0, actions).shared;
      assert init + [actions[n]] == actions;
      if before.shared.clients[c] == answer {
        called, point := Linearizes(cfg, s0, init, c, answer);
        EffectStays(t, last, c, answer, point);
      } else {
        point := n;
        called := CallOf(cfg, s0, init, c, answer.cost);
      }
      AskingStays(t, last, init, actions[n], c, answer.cost, called, point);
    }
  }

  /** `try_acquire_at` answers true exactly when that step took the launch's own cost; otherwise it took nothing. */
  lemma AnsweredByItsPoint(cfg: Config, clients: nat, actions: seq<CasAction>, c: nat, answer: Client)
    returns (point: int)
    requires ValidConfig(cfg) && CasLegal(actions) && answer.Answered?
    requires ClientIs(CasExec(cfg, CasStart(cfg, clients), actions).shared, c, answer)
    ensures var t := Trace(cfg, CasStart(cfg, clients), actions);
            && TookEffect(t, c, answer, point)
            && t[point + 1].tokens == t[point].tokens - (if answer.before >= answer.cost then answer.cost else 0.0)
  {
    var called;
    called, point := Linearizes(cfg, CasStart(cfg, clients), actions, c, answer);
    CasThroughputBound(cfg, clients, actions);
  }

  // Progress.

  /** A step after which the level is different completes a `fetch_sub`, the controller's `fetch_add` or its clamp. */
  lemma {:induction false} OnlyCompletedStepsMove(cfg: Config, s: CasState, a: CasAction)
    requires ValidConfig(cfg) && LocalsFit(s) && CasStep(cfg, s, a).shared.tokens != s.shared.tokens
    ensures Meaning(s, a) != [] && (Meaning(s, a)[0].Take? || Meaning(s, a)[0].Refill? || Meaning(s, a)[0].WriteLevel?)
  {
  }

  /** Step `l` loaded client `c`'s local variable, which has not changed since. */
  ghost predicate LoadedSince(cfg: Config, clients: nat, actions: seq<CasAction>, c: nat, l: int)
    requires ValidConfig(cfg)
  {
    && 0 <= l < |actions| && actions[l] == Load(c)
    && forall j :: l < j <= |actions| ==> LocalAt(cfg, clients, actions[..j], c) == LocalAt(cfg, clients, actions, c)
  }

  function LocalAt(cfg: Config, clients: nat, actions: seq<CasAction>, c: nat): Option<real>
    requires ValidConfig(cfg)
  {
    var loaded := CasExec(cfg, CasStart(cfg, clients), actions).loaded;
    if c < |loaded| then loaded[c] else None
  }

  lemma {:induction false} LocalChanges(cfg: Config, clients: nat, actions: seq<CasAction>, c: nat)
    requires ValidConfig(cfg) && actions != [] && LocalAt(cfg, clients, actions, c).Some?
    ensures var init, last := actions[..|actions| - 1], actions[|actions| - 1];
            LocalAt(cfg, clients, init, c) != LocalAt(cfg, clients, actions, c) ==>
              last == Load(c) && LocalAt(cfg, clients, actions, c) ==
                Some(CasExec(cfg, CasStart(cfg, clients), actions).shared.tokens)
  {
    RunLocalsFit(cfg, CasStart(cfg, clients), actions[..|actions| - 1]);
  }

  /** The level changes at step `k`, and the step completes an access. */
  predicate Completes(cfg: Config, clients: nat, actions: seq<CasAction>, k: int)
    requires ValidConfig(cfg) && 0 <= k < |actions|
  {
    var before := CasExec(cfg, CasStart(cfg, clients), actions[..k]);
    var m := Meaning(before, actions[k]);
    && CasStep(cfg, before, actions[k]).shared.tokens != before.shared.tokens
    && m != [] && (m[0].Take? || m[0].Refill? || m[0].WriteLevel?)
  }

  lemma LoadStays(cfg: Config, clients: nat, actions: seq<CasAction>, c: nat, l: int)
    requires ValidConfig(cfg) && actions != [] && LoadedSince(cfg, clients, actions[..|actions| - 1], c, l)
    requires LocalAt(cfg, clients, actions[..|actions| - 1], c) == LocalAt(cfg, clients, actions, c)
    ensures LoadedSince(cfg, clients, actions, c, l)
  {
    var init := actions[..|actions| - 1];
    forall j | l < j <= |actions|
      ensures LocalAt(cfg, clients, actions[..j], c) == LocalAt(cfg, clients, actions, c)
    {
      if j < |actions| {
        assert init[..j] == actions[..j];
      } else {
        assert actions[..j] == actions;
      }
    }
  }

  lemma {:induction false} LoadOf(cfg: Config, clients: nat, actions: seq<CasAction>, c: nat) returns (l: int)
    requires ValidConfig(cfg) && LocalAt(cfg, clients, actions, c).Some?
    ensures LoadedSince(cfg, clients, actions, c, l)
  {
    if actions == [] {
      assert false;
    } else {
      var init := actions[..|actions| - 1];
      LocalChanges(cfg, clients, actions, c);
      if LocalAt(cfg, clients, init, c) == LocalAt(cfg, clients, actions, c) {
        l := LoadOf(cfg, clients, init, c);
        LoadStays(cfg, clients, actions, c, l);
      } else {
        l := |actions| - 1;
        assert actions[..l + 1] == actions;
      }
    }
  }

  /** So a compare-exchange that is about to fail has lost to an access that completed since its load and moved the
      level. */
  lemma {:induction false} FailedSwapMeansProgress(cfg: Config, clients: nat, actions: seq<CasAction>, c: nat)
    returns (l: int, k: int)
    requires ValidConfig(cfg) && LocalAt(cfg, clients, actions, c).Some?
    requires LocalAt(cfg, clients, actions, c) != Some(CasExec(cfg, CasStart(cfg, clients), actions).shared.tokens)
    ensures LoadedSince(cfg, clients, actions, c, l) && l < k < |actions| && Completes(cfg, clients, actions, k)
  {
    if actions == [] {
      assert false;
    } else {
      var s0, n, init := CasStart(cfg, clients), |actions| - 1, actions[..|actions| - 1];
      LocalChanges(cfg, clients, actions, c);
      if LocalAt(cfg, clients, init, c) != Some(CasExec(cfg, s0, init).shared.tokens) {
        l, k := FailedSwapMeansProgress(cfg, clients, init, c);
        assert init[..k] == actions[..k];
      } else {
        l := LoadOf(cfg, clients, init, c);
        k := n;
        RunLocalsFit(cfg, s0, init);
        OnlyCompletedStepsMove(cfg, CasExec(cfg, s0, init), actions[n]);
      }
      LoadStays(cfg, clients, actions, c, l);
    }
  }

  /** The step is a compare-exchange of client `c` that fails. */
  predicate FailsSwap(s: CasState, a: CasAction, c: nat) {
    a == Swap(c) && InLoop(s, c) && s.loaded[c].Some? && s.loaded[c] != Some(s.shared.tokens)
  }

  /** How many compare-exchanges of the client fail in the run. */
  function FailedSwaps(cfg: Config, s: CasState, actions: seq<CasAction>, c: nat): nat
    requires ValidConfig(cfg)
  {
    if actions == [] then 0
    else
      var init, last := actions[..|actions| - 1], actions[|actions| - 1];
      FailedSwaps(cfg, s, init, c) + (if FailsSwap(CasExec(cfg, s, init), last, c) then 1 else 0)
  }

  /** How many steps of the run move the level. */
  function Moves(cfg: Config, s: CasState, actions: seq<CasAction>): nat
    requires ValidConfig(cfg)
  {
    if actions == [] then 0
    else
      var init := actions[..|actions| - 1];
      var moved := CasExec(cfg, s, actions).shared.tokens != CasExec(cfg, s, init).shared.tokens;
      Moves(cfg, s, init) + (if moved then 1 else 0)
  }

  /** The client has a level in its local variable that is no longer the present one. */
  predicate Outdated(s: CasState, c: nat) {
    c < |s.loaded| && s.loaded[c].Some? && s.loaded[c] != Some(s.shared.tokens)
  }

  lemma OutdatedStep(cfg: Config, s: CasState, a: CasAction, c: nat)
    requires ValidConfig(cfg) && LocalsFit(s)
    ensures FailsSwap(s, a, c) ==> Outdated(s, c) && !Outdated(CasStep(cfg, s, a), c)
    ensures Outdated(CasStep(cfg, s, a), c) && !Outdated(s, c) ==> CasStep(cfg, s, a).shared.tokens != s.shared.tokens
  {
  }

  /** Over any run a client's compare-exchanges fail at most once for every step that moves the level, and once less
      while the client holds an outdated level. */
  lemma {:induction false} FailuresBounded(cfg: Config, s: CasState, actions: seq<CasAction>, c: nat)
    requires ValidConfig(cfg) && LocalsFit(s) && !Outdated(s, c)
    ensures FailedSwaps(cfg, s, actions, c) + (if Outdated(CasExec(cfg, s, actions), c) then 1 else 0) <=
            Moves(cfg, s, actions)
  {
    if actions != [] {
      var init := actions[..|actions| - 1];
      FailuresBounded(cfg, s, init, c);
      RunLocalsFit(cfg, s, init);
      OutdatedStep(cfg, CasExec(cfg, s, init), actions[|actions| - 1], c);
    }
  }

  /** Alone, a `fetch_sub` is over after one load and one compare-exchange. */
  lemma {:induction false} AloneFinishes(cfg: Config, s: CasState, c: nat)
    requires ValidConfig(cfg) && LocalsFit(s) && InLoop(s, c) && s.loaded[c].None?
    ensures var s' := CasStep(cfg, CasStep(cfg, s, Load(c)), Swap(c)).shared;
            s'.clients[c].Answered? && s'.tokens == Lowered(s.shared.tokens, s.shared.clients[c].cost)
  {
  }

  // The controller's loop.

  /** Alone, the controller's `fetch_add` is over after its two loads and one compare-exchange, and has refilled. */
  lemma {:induction false} AddAloneFinishes(cfg: Config, s: CasState)
    requires ValidConfig(cfg) && LocalsFit(s) && s.add.Outside? && s.shared.phase.Refilling?
    ensures var s' := CasStep(cfg, CasStep(cfg, CasStep(cfg, s, LoadCapacity), LoadLevel), SwapLevel);
            s' == s.(shared := Step(cfg, s.shared, Refill)) && s'.shared.phase.PublishingRate?
  {
  }

  predicate FailsAdd(s: CasState, a: CasAction) {
    a.SwapLevel? && AddOutdated(s)
  }

  predicate AddOutdated(s: CasState) {
    s.add.Swapping? && s.add.seen != s.shared.tokens
  }

  function FailedAdds(cfg: Config, s: CasState, actions: seq<CasAction>): nat
    requires ValidConfig(cfg)
  {
    if actions == [] then 0
    else
      var init, last := actions[..|actions| - 1], actions[|actions| - 1];
      FailedAdds(cfg, s, init) + (if FailsAdd(CasExec(cfg, s, init), last) then 1 else 0)
  }

  lemma AddOutdatedStep(cfg: Config, s: CasState, a: CasAction)
    requires ValidConfig(cfg) && LocalsFit(s)
    ensures FailsAdd(s, a) ==> CasStep(cfg, s, a) == s.(add := Loading(s.add.capacity))
    ensures a.SwapLevel? && s.add.Swapping? && !FailsAdd(s, a) ==> CasStep(cfg, s, a).add.Outside?
    ensures AddOutdated(CasStep(cfg, s, a)) && !AddOutdated(s) ==>
              CasStep(cfg, s, a).shared.tokens != s.shared.tokens
  {
  }

  /** The same bound on the failures of the controller's compare-exchanges: clients hold a refill up only by taking
      tokens. */
  lemma {:induction false} AddFailuresBounded(cfg: Config, s: CasState, actions: seq<CasAction>)
    requires ValidConfig(cfg) && LocalsFit(s) && !AddOutdated(s)
    ensures FailedAdds(cfg, s, actions) + (if AddOutdated(CasExec(cfg, s, actions)) then 1 else 0) <=
            Moves(cfg, s, actions)
  {
    if actions != [] {
      var init := actions[..|actions| - 1];
      AddFailuresBounded(cfg, s, init);
      RunLocalsFit(cfg, s, init);
      AddOutdatedStep(cfg, CasExec(cfg, s, init), actions[|actions| - 1]);
    }
  }
}
