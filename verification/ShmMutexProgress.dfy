/** That calls on the shared pid set finish, and that the lock around it is freed: by its holder, or by a cleanup once
    there is no holder any more. */
module ShmMutexProgress {
  import opened PidRegistries
  import opened ShmMutexes

  lemma {:induction false} ExecAppend(m: Mutex, s: State, first: seq<Action>, rest: seq<Action>)
    ensures Exec(m, s, first + rest) == Exec(m, Exec(m, s, first), rest)
  {
    if rest == [] {
      assert first + rest == first;
    } else {
      ExecAppend(m, s, first, rest[..|rest| - 1]);
      assert (first + rest)[..|first + rest| - 1] == first + rest[..|rest| - 1];
    }
  }

  lemma ExecOne(m: Mutex, s: State, a: Action)
    ensures Exec(m, s, [a]) == Step(m, s, a)
  {
    assert [a][..0] == [];
  }

  lemma ExecSnoc(m: Mutex, s: State, earlier: seq<Action>, a: Action)
    ensures Exec(m, s, earlier + [a]) == Step(m, Exec(m, s, earlier), a)
  {
    assert (earlier + [a])[..|earlier|] == earlier;
  }

  lemma ExecTwo(m: Mutex, s: State, a: Action, b: Action)
    ensures Exec(m, s, [a, b]) == Step(m, Step(m, s, a), b)
  {
    ExecOne(m, s, a);
    ExecSnoc(m, s, [a], b);
    assert [a] + [b] == [a, b];
  }

  lemma ExecThree(m: Mutex, s: State, a: Action, b: Action, c: Action)
    ensures Exec(m, s, [a, b, c]) == Step(m, Step(m, Step(m, s, a), b), c)
  {
    ExecTwo(m, s, a, b);
    ExecSnoc(m, s, [a, b], c);
    assert [a, b] + [c] == [a, b, c];
  }

  /** What `data` and `log` are after a call. */
  function AfterCall(m: Mutex, s: State, call: Call): State {
    match call
    case Change(op) => s.(data := Apply(s.data, m.capacity, op), log := s.log + [op])
    case GetAll => s
  }

  /** The steps a call takes when nobody gets in its way, up to its unlock. */
  function Uninterrupted(t: nat, call: Call): seq<Action> {
    [Lock(t, call), TryLock(t)] + [Read(t), Write(t)]
  }

  lemma Enters(m: Mutex, s: State, t: nat, call: Call)
    requires s.lock == 0 && t < |s.threads| && s.threads[t].Idle?
    ensures Exec(m, s, [Lock(t, call), TryLock(t)]) == Set(s, t, Entered(call)).(lock := m.pid)
  {
    ExecTwo(m, s, Lock(t, call), TryLock(t));
  }

  lemma Works(m: Mutex, s: State, t: nat, call: Call)
    requires t < |s.threads| && s.threads[t] == Entered(call)
    ensures Exec(m, s, [Read(t), Write(t)]) ==
            Set(AfterCall(m, s, call), t, Finished(call, if call.GetAll? then s.data else {}))
  {
    ExecTwo(m, s, Read(t), Write(t));
  }

  /** A call nobody interrupts, made while the lock is free: it ends with the lock free and the thread idle again, has
      applied its operation to the data and logged it, and the answer of a `get_all_pids` is the data. */
  lemma UninterruptedCall(m: Mutex, s: State, t: nat, call: Call)
    requires s.lock == 0 && t < |s.threads| && s.threads[t].Idle?
    ensures Exec(m, s, Uninterrupted(t, call) + [Unlock(t)]) == AfterCall(m, s, call)
    ensures Exec(m, s, Uninterrupted(t, call)).threads[t] == Finished(call, if call.GetAll? then s.data else {})
  {
    var entered := Set(s, t, Entered(call)).(lock := m.pid);
    Enters(m, s, t, call);
    Works(m, entered, t, call);
    ExecAppend(m, s, [Lock(t, call), TryLock(t)], [Read(t), Write(t)]);
    ExecSnoc(m, s, Uninterrupted(t, call), Unlock(t));
    assert s.threads[t := Idle] == s.threads;
  }

  /** In every undisturbed run the unlock of a holder frees the lock, and a spinning thread that then tries enters. */
  lemma {:induction false} UnlockFrees(m: Mutex, s: State, actions: seq<Action>, t: nat)
    requires m.pid != 0 && Initial(s) && Undisturbed(m, s, actions)
    requires Holds(Exec(m, s, actions), t) && Exec(m, s, actions).threads[t].Finished?
    ensures var s' := Exec(m, s, actions + [Unlock(t)]);
            && s'.lock == 0 && s'.threads[t].Idle? && (forall u :: !Holds(s', u))
            && forall u :: 0 <= u < |s'.threads| && s'.threads[u].Spinning? ==> Holds(Step(m, s', TryLock(u)), u)
  {
    MutualExclusion(m, s, actions);
    ExecSnoc(m, s, actions, Unlock(t));
    GuardGoes(m, Exec(m, s, actions), t);
  }

  lemma GuardGoes(m: Mutex, s: State, t: nat)
    requires Exclusive(m, s) && Holds(s, t) && s.threads[t].Finished?
    ensures var s' := Step(m, s, Unlock(t));
            s' == Set(s, t, Idle).(lock := 0) && forall u :: !Holds(s', u)
  {
    var s' := Step(m, s, Unlock(t));
    forall u: nat
      ensures !Holds(s', u)
    {
      GuardsOfOthers(m, s, Unlock(t), u);
    }
  }

  // Nobody waits in vain: whoever is in the way, the lock can be had.

  /** What a guard has left to do. */
  function WayOut(thread: Thread, t: nat): seq<Action> {
    match thread
    case Entered(_) => [Read(t), Write(t), Unlock(t)]
    case Loaded(_, _) => [Write(t), Unlock(t)]
    case Finished(_, _) => [Unlock(t)]
    case _ => []
  }

  lemma HolderLeaves(m: Mutex, s: State, t: nat)
    requires m.pid != 0 && Exclusive(m, s) && Holds(s, t)
    ensures var s' := Exec(m, s, WayOut(s.threads[t], t));
            && s'.lock == 0 && (forall u :: !Holds(s', u))
            && s'.threads == s.threads[t := Idle]
    decreases if s.threads[t].Entered? then 2 else if s.threads[t].Loaded? then 1 else 0
  {
    var actions := WayOut(s.threads[t], t);
    var s1 := Step(m, s, actions[0]);
    ExecAppend(m, s, [actions[0]], actions[1..]);
    ExecOne(m, s, actions[0]);
    assert [actions[0]] + actions[1..] == actions;
    if s.threads[t].Finished? {
      GuardGoes(m, s, t);
      assert actions[1..] == [];
    } else {
      StepKeepsExclusion(m, s, actions[0]);
      assert actions[1..] == WayOut(s1.threads[t], t);
      HolderLeaves(m, s1, t);
    }
  }

  predicate Waits(s: State, t: nat) {
    t < |s.threads|
    && (s.threads[t].Spinning? || s.threads[t].Checking? || s.threads[t].Probing? || s.threads[t].Cleaning?)
  }

  /** What a waiting thread does once the lock is free; a probe it is about to make may find the creator alive. */
  function WayIn(thread: Thread, t: nat): seq<Action> {
    match thread
    case Spinning(_) => [TryLock(t)]
    case Checking(_) => [LoadHolder(t), TryLock(t)]
    case Probing(_, _) => [Probe(t, true), TryLock(t)]
    case Cleaning(_, _) => [Clean(t), TryLock(t)]
    case _ => []
  }

  lemma WaiterEnters(m: Mutex, s: State, t: nat)
    requires s.lock == 0 && Waits(s, t)
    ensures Holds(Exec(m, s, WayIn(s.threads[t], t)), t)
  {
    var actions := WayIn(s.threads[t], t);
    if |actions| == 1 {
      ExecOne(m, s, actions[0]);
    } else {
      ExecTwo(m, s, actions[0], actions[1]);
    }
  }

  lemma WaiterCanEnter(m: Mutex, s: State, u: nat) returns (more: seq<Action>)
    requires m.pid != 0 && Exclusive(m, s) && Waits(s, u)
    ensures Holds(Exec(m, s, more), u) && |more| <= 5
  {
    var leaving: seq<Action> := [];
    if t: nat :| Holds(s, t) {
      HolderLeaves(m, s, t);
      leaving := WayOut(s.threads[t], t);
    }
    var free := Exec(m, s, leaving);
    assert free.threads[u] == s.threads[u];
    WaiterEnters(m, free, u);
    more := leaving + WayIn(s.threads[u], u);
    ExecAppend(m, s, leaving, WayIn(s.threads[u], u));
  }

  /** From every state that an undisturbed run reaches, a waiting thread enters after what the holder, if there is one,
      has left to do, and at most two steps of its own. */
  lemma {:induction false} EveryWaiterCanEnter(m: Mutex, s: State, actions: seq<Action>, u: nat)
    returns (more: seq<Action>)
    requires m.pid != 0 && Initial(s) && Undisturbed(m, s, actions) && Waits(Exec(m, s, actions), u)
    ensures Holds(Exec(m, s, actions + more), u) && |more| <= 5
  {
    MutualExclusion(m, s, actions);
    more := WaiterCanEnter(m, Exec(m, s, actions), u);
    ExecAppend(m, s, actions, more);
  }

  // A lock word that a dead process left behind.

  /** The startup cleanup frees it exactly if the probe finds its process dead, and changes nothing else. */
  lemma StartupFreesOrphan(m: Mutex, s: State, t: nat)
    requires s.lock != 0 && t < |s.threads| && s.threads[t].Idle?
    ensures Exec(m, s, [StartupLoad(t), Probe(t, false), StartupClean(t)]) == s.(lock := 0)
    ensures Exec(m, s, [StartupLoad(t), Probe(t, true)]) == s
  {
    ExecTwo(m, s, StartupLoad(t), Probe(t, true));
    ExecThree(m, s, StartupLoad(t), Probe(t, false), StartupClean(t));
    assert s.threads[t := Idle] == s.threads;
  }

  /** And a free word it leaves alone. */
  lemma StartupKeepsFree(m: Mutex, s: State, t: nat)
    requires s.lock == 0 && t < |s.threads| && s.threads[t].Idle?
    ensures Step(m, s, StartupLoad(t)) == s
  {
  }

  /** A thread in `lock` that finds the word taken and its process dead frees it and enters. */
  lemma SpinnerFreesOrphan(m: Mutex, s: State, t: nat)
    requires m.pid != 0 && s.lock != 0 && t < |s.threads| && s.threads[t].Spinning?
    ensures var s' := Exec(m, s, [TryLock(t), LoadHolder(t), Probe(t, false), Clean(t), TryLock(t)]);
            s' == Set(s, t, Entered(s.threads[t].call)).(lock := m.pid)
  {
    var first, rest := [TryLock(t), LoadHolder(t)], [Probe(t, false), Clean(t), TryLock(t)];
    ExecTwo(m, s, TryLock(t), LoadHolder(t));
    ExecThree(m, Exec(m, s, first), Probe(t, false), Clean(t), TryLock(t));
    ExecAppend(m, s, first, rest);
    assert first + rest == [TryLock(t), LoadHolder(t), Probe(t, false), Clean(t), TryLock(t)];
  }
}
