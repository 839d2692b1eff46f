/** crates/utils/src/shared_memory/mutex.rs: the cross-process spin lock over a pid set, as interleaved atomic steps.

    The lock word is 0 or a pid. `pid` is stored in the shared structure by its creator, and every locker writes that
    same value, so a cleanup can only ask whether the creator lives. */
module ShmMutexes {
  import opened PidRegistries

  /** What a caller does with the pid set under the lock. */
  datatype Call = Change(op: PidOp) | GetAll

  /** Where one thread of one process is inside the lock. */
  datatype Thread =
    | Idle
    | Spinning(call: Call)                            // in `lock`, before the compare-exchange of 0
    | Checking(call: Call)                            // in `try_cleanup_dead_lock`, before the load
    | Probing(call: Call, holder: nat)                // loaded a non-zero holder, before the aliveness probe
    | Cleaning(call: Call, holder: nat)               // probe answered dead, before the compare-exchange to 0
    | StartupProbing                                  // in `cleanup_orphaned_lock`, before the probe
    | StartupCleaning                                 // in `cleanup_orphaned_lock`, before the store of 0
    | Entered(call: Call)                             // holds a guard, has not read the data
    | Loaded(call: Call, copy: set<nat>)              // holds a guard, has read the data
    | Finished(call: Call, answer: set<nat>)          // holds a guard, is done with the data

  datatype Action =
    | Lock(t: nat, call: Call)
    | TryLock(t: nat)
    | LoadHolder(t: nat)
    | Probe(t: nat, alive: bool)
    | Clean(t: nat)
    | StartupLoad(t: nat)
    | StartupClean(t: nat)
    | Read(t: nat)
    | Write(t: nat)   // for `get_all_pids`: the list is made, nothing is written
    | Unlock(t: nat)

  datatype State = State(lock: nat, data: set<nat>, threads: seq<Thread>, log: seq<PidOp>)

  datatype Mutex = Mutex(pid: nat, capacity: nat)

  predicate HasGuard(thread: Thread) {
    thread.Entered? || thread.Loaded? || thread.Finished?
  }

  predicate Holds(s: State, t: nat) {
    t < |s.threads| && HasGuard(s.threads[t])
  }

  function Set(s: State, t: nat, thread: Thread): State
    requires t < |s.threads|
  {
    s.(threads := s.threads[t := thread])
  }

  /** One atomic step; an action that its thread cannot take changes nothing. */
  function Step(m: Mutex, s: State, a: Action): State {
    if a.t >= |s.threads| then s else
    match (a, s.threads[a.t])
    case (Lock(t, call), Idle) => Set(s, t, Spinning(call))
    case (TryLock(t), Spinning(call)) =>
      if s.lock == 0 then Set(s, t, Entered(call)).(lock := m.pid) else Set(s, t, Checking(call))
    case (LoadHolder(t), Checking(call)) =>
      Set(s, t, if s.lock != 0 then Probing(call, s.lock) else Spinning(call))
    case (Probe(t, alive), Probing(call, holder)) =>
      Set(s, t, if alive then Spinning(call) else Cleaning(call, holder))
    case (Clean(t), Cleaning(call, holder)) =>
      Set(s, t, Spinning(call)).(lock := if s.lock == holder then 0 else s.lock)
    case (StartupLoad(t), Idle) => if s.lock != 0 then Set(s, t, StartupProbing) else s
    case (Probe(t, alive), StartupProbing) => Set(s, t, if alive then Idle else StartupCleaning)
    case (StartupClean(t), StartupCleaning) => Set(s, t, Idle).(lock := 0)
    case (Read(t), Entered(call)) => Set(s, t, Loaded(call, s.data))
    case (Write(t), Loaded(Change(op), copy)) =>
      Set(s, t, Finished(Change(op), {})).(data := Apply(copy, m.capacity, op), log := s.log + [op])
    case (Write(t), Loaded(GetAll, copy)) => Set(s, t, Finished(GetAll, copy))
    case (Unlock(t), Finished(_, _)) => Set(s, t, Idle).(lock := if s.lock == m.pid then 0 else s.lock)
    case _ => s
  }

  function Exec(m: Mutex, s: State, actions: seq<Action>): State {
    if actions == [] then s
    else Step(m, Exec(m, s, actions[..|actions| - 1]), actions[|actions| - 1])
  }

  predicate Initial(s: State) {
    s.lock == 0 && s.log == [] && s.data == {} && forall t :: 0 <= t < |s.threads| ==> s.threads[t].Idle?
  }

  /** At most one guard; the lock word is the pid exactly while a guard is held and 0 otherwise; the data is what the
      logged operations produce one after the other, and a guard's copy of it is current. */
  ghost predicate Exclusive(m: Mutex, s: State) {
    && (forall t, u :: Holds(s, t) && Holds(s, u) ==> t == u)
    && (s.lock == m.pid || s.lock == 0)
    && (s.lock == m.pid <==> exists t :: Holds(s, t))
    && s.data == Run({}, m.capacity, s.log)
    && (forall t :: 0 <= t < |s.threads| && s.threads[t].Loaded? ==> s.threads[t].copy == s.data)
  }

  /** A cleanup writes 0 into the lock word while a guard is held. */
  ghost predicate Disturbs(s: State, a: Action) {
    && a.t < |s.threads|
    && (exists t :: Holds(s, t))
    && ((a.Clean? && s.threads[a.t].Cleaning? && s.lock == s.threads[a.t].holder)
        || (a.StartupClean? && s.threads[a.t].StartupCleaning?))
  }

  ghost predicate Undisturbed(m: Mutex, s: State, actions: seq<Action>) {
    forall k :: 0 <= k < |actions| ==> !Disturbs(Exec(m, s, actions[..k]), actions[k])
  }

  /** A step changes the guard of its own thread alone: `TryLock` on a free word takes one, `Unlock` gives it back. */
  lemma GuardsOfOthers(m: Mutex, s: State, a: Action, t: nat)
    ensures t != a.t ==> (Holds(Step(m, s, a), t) <==> Holds(s, t))
    ensures t == a.t && Holds(Step(m, s, a), t) && !Holds(s, t) ==> s.lock == 0 && Step(m, s, a).lock == m.pid
    ensures t == a.t && Holds(s, t) && !Holds(Step(m, s, a), t) ==>
              Step(m, s, a).lock == if s.lock == m.pid then 0 else s.lock
    ensures t == a.t && Holds(s, t) && Holds(Step(m, s, a), t) ==> Step(m, s, a).lock == s.lock
  {
  }

  /** The lock word changes only where a thread gets or gives back a guard, or in a cleanup that hits. */
  lemma LockMoves(m: Mutex, s: State, a: Action)
    requires s.lock == m.pid || s.lock == 0
    ensures var lock' := Step(m, s, a).lock;
            && (lock' == m.pid || lock' == 0)
            && (s.lock == 0 && lock' != 0 ==> Holds(Step(m, s, a), a.t))
            && (s.lock != 0 && lock' == 0 ==> (exists t :: Holds(s, t)) ==> Disturbs(s, a) || Holds(s, a.t))
  {
  }

  lemma {:induction false} StepKeepsOneGuard(m: Mutex, s: State, a: Action)
    requires m.pid != 0 && Exclusive(m, s) && !Disturbs(s, a)
    ensures var s' := Step(m, s, a);
            && (forall t, u :: Holds(s', t) && Holds(s', u) ==> t == u)
            && (s'.lock == m.pid || s'.lock == 0)
            && (s'.lock == m.pid <==> exists t :: Holds(s', t))
  {
    var s' := Step(m, s, a);
    LockMoves(m, s, a);
    GuardsOfOthers(m, s, a, a.t);
    forall t: nat, u: nat | Holds(s', t) && Holds(s', u)
      ensures t == u
    {
      GuardsOfOthers(m, s, a, t);
      GuardsOfOthers(m, s, a, u);
    }
    if t :| Holds(s', t) {
      GuardsOfOthers(m, s, a, t);
      assert s'.lock == m.pid;
    } else if s'.lock != 0 && s.lock != 0 {
      var t :| Holds(s, t);
      GuardsOfOthers(m, s, a, t);
      assert false;
    }
  }

  /** Only the guard writes the data, and it applies its operation to the current data. */
  lemma {:induction false} StepKeepsData(m: Mutex, s: State, a: Action)
    requires Exclusive(m, s)
    ensures var s' := Step(m, s, a);
            && s'.data == Run({}, m.capacity, s'.log)
            && (forall t :: 0 <= t < |s'.threads| && s'.threads[t].Loaded? ==> s'.threads[t].copy == s'.data)
  {
    var s' := Step(m, s, a);
    if s'.log != s.log {
      assert s'.log[..|s.log|] == s.log;
      assert Holds(s, a.t);
      assert forall t: nat :: t < |s.threads| && s.threads[t].Loaded? ==> Holds(s, t);
    }
  }

  lemma {:induction false} StepKeepsExclusion(m: Mutex, s: State, a: Action)
    requires m.pid != 0 && Exclusive(m, s) && !Disturbs(s, a)
    ensures Exclusive(m, Step(m, s, a))
  {
    StepKeepsOneGuard(m, s, a);
    StepKeepsData(m, s, a);
  }

  /** In every interleaving in which no cleanup hits a held lock, the lock excludes. */
  lemma {:induction false} MutualExclusion(m: Mutex, s: State, actions: seq<Action>)
    requires m.pid != 0 && Initial(s) && Undisturbed(m, s, actions)
    ensures Exclusive(m, Exec(m, s, actions))
  {
    if actions != [] {
      var before := actions[..|actions| - 1];
      forall k | 0 <= k < |before|
        ensures !Disturbs(Exec(m, s, before[..k]), before[k])
      {
        assert before[..k] == actions[..k];
      }
      MutualExclusion(m, s, before);
      StepKeepsExclusion(m, Exec(m, s, before), actions[|actions| - 1]);
    }
  }

  // With every probe answering alive, no cleanup ever gets past its probe.

  predicate ProbesAlive(actions: seq<Action>) {
    forall k :: 0 <= k < |actions| && actions[k].Probe? ==> actions[k].alive
  }

  predicate NobodyCleans(s: State) {
    forall t :: 0 <= t < |s.threads| ==> !s.threads[t].Cleaning? && !s.threads[t].StartupCleaning?
  }

  lemma {:induction false} AliveMeansNobodyCleans(m: Mutex, s: State, actions: seq<Action>)
    requires Initial(s) && ProbesAlive(actions)
    ensures NobodyCleans(Exec(m, s, actions))
  {
    if actions != [] {
      AliveMeansNobodyCleans(m, s, actions[..|actions| - 1]);
    }
  }

  lemma AliveMeansUndisturbed(m: Mutex, s: State, actions: seq<Action>)
    requires Initial(s) && ProbesAlive(actions)
    ensures Undisturbed(m, s, actions)
  {
    forall k | 0 <= k < |actions|
      ensures !Disturbs(Exec(m, s, actions[..k]), actions[k])
    {
      AliveMeansNobodyCleans(m, s, actions[..k]);
    }
  }

  /** Mutual exclusion as the lock is meant to be used: the creator lives, so every probe answers alive. */
  lemma {:induction false} AliveCreatorExcludes(m: Mutex, s: State, actions: seq<Action>)
    requires m.pid != 0 && Initial(s) && ProbesAlive(actions)
    ensures Undisturbed(m, s, actions) && Exclusive(m, Exec(m, s, actions))
  {
    AliveMeansUndisturbed(m, s, actions);
    MutualExclusion(m, s, actions);
  }

  ghost predicate TwoGuards(s: State) {
    exists t, u :: t != u && Holds(s, t) && Holds(s, u)
  }

  /** The converse of `MutualExclusion`: as soon as a cleanup hits a held lock, the cleaning thread can go on to take
      the lock beside the guard that is already there. */
  lemma {:induction false} DisturbanceBreaksExclusion(m: Mutex, s: State, a: Action, call: Call)
    requires Exclusive(m, s) && Disturbs(s, a)
    ensures TwoGuards(Exec(m, Step(m, s, a), [Lock(a.t, call), TryLock(a.t)]))
  {
    var t :| Holds(s, t);
    var s1 := Step(m, s, a);
    assert s1.lock == 0 && Holds(s1, t) && t != a.t;
    var s2 := Step(m, s1, Lock(a.t, call));
    var s3 := Step(m, s2, TryLock(a.t));
    assert Holds(s3, t) && Holds(s3, a.t);
    assert [Lock(a.t, call), TryLock(a.t)][..1] == [Lock(a.t, call)];
    assert Exec(m, s1, [Lock(a.t, call)]) == s2;
  }

  /** With a dead creator the hypothesis is not met: while process 0 holds the lock, process 1 finds the creator
      dead, clears the word and enters too. */
  lemma DeadCreatorBreaksExclusion(m: Mutex, s: State, call: Call)
    requires m.pid != 0 && Initial(s) && |s.threads| >= 2
    ensures var run := [Lock(0, call), TryLock(0), Lock(1, call), TryLock(1),
                        LoadHolder(1), Probe(1, false), Clean(1), TryLock(1)];
            TwoGuards(Exec(m, s, run))
  {
    var run := [Lock(0, call), TryLock(0), Lock(1, call), TryLock(1),
                LoadHolder(1), Probe(1, false), Clean(1), TryLock(1)];
    var s1 := Step(m, s, run[0]);
    var s2 := Step(m, s1, run[1]);
    var s3 := Step(m, s2, run[2]);
    var s4 := Step(m, s3, run[3]);
    var s5 := Step(m, s4, run[4]);
    var s6 := Step(m, s5, run[5]);
    var s7 := Step(m, s6, run[6]);
    var s8 := Step(m, s7, run[7]);
    assert Exec(m, s, run[..1]) == s1;
    assert Exec(m, s, run[..2]) == s2 by { assert run[..2][..1] == run[..1]; }
    assert Exec(m, s, run[..3]) == s3 by { assert run[..3][..2] == run[..2]; }
    assert Exec(m, s, run[..4]) == s4 by { assert run[..4][..3] == run[..3]; }
    assert Exec(m, s, run[..5]) == s5 by { assert run[..5][..4] == run[..4]; }
    assert Exec(m, s, run[..6]) == s6 by { assert run[..6][..5] == run[..5]; }
    assert Exec(m, s, run[..7]) == s7 by { assert run[..7][..6] == run[..6]; }
    assert Exec(m, s, run) == s8;
    assert Holds(s8, 0) && Holds(s8, 1);
  }

  // Every call takes effect at one step between its lock and its unlock.

  /** The states of a run, from the first to the last. */
  function Trace(m: Mutex, s: State, actions: seq<Action>): (t: seq<State>)
    ensures |t| == |actions| + 1 && t[|actions|] == Exec(m, s, actions)
  {
    if actions == [] then [s] else Trace(m, s, actions[..|actions| - 1]) + [Exec(m, s, actions)]
  }

  /** The thread has made this call and not finished it. */
  predicate WorksOn(s: State, t: nat, call: Call) {
    && t < |s.threads|
    && match s.threads[t]
       case Spinning(c) => c == call
       case Checking(c) => c == call
       case Probing(c, _) => c == call
       case Cleaning(c, _) => c == call
       case Entered(c) => c == call
       case Loaded(c, _) => c == call
       case _ => false
  }

  /** Thread `t` made the call at step `called` and works on it from then on up to state `until`. */
  ghost predicate WorkingBetween(states: seq<State>, actions: seq<Action>,
                                 t: nat, call: Call, called: int, until: int) {
    && 0 <= called < until < |states| && called < |actions| && actions[called] == Lock(t, call)
    && forall k :: called < k <= until ==> WorksOn(states[k], t, call)
  }

  lemma WorkStays(states: seq<State>, last: State, actions: seq<Action>, a: Action,
                  t: nat, call: Call, called: int, until: int)
    requires WorkingBetween(states, actions, t, call, called, until)
    ensures WorkingBetween(states + [last], actions + [a], t, call, called, until)
  {
  }

  lemma WorkStarts(m: Mutex, s: State, a: Action, t: nat, call: Call)
    requires WorksOn(Step(m, s, a), t, call) && !WorksOn(s, t, call)
    ensures a == Lock(t, call)
  {
  }

  /** A thread that works on a call made it, and has worked on it since. */
  lemma {:induction false} CallOf(m: Mutex, s: State, actions: seq<Action>, t: nat, call: Call) returns (called: int)
    requires Initial(s) && WorksOn(Exec(m, s, actions), t, call)
    ensures WorkingBetween(Trace(m, s, actions), actions, t, call, called, |actions|)
  {
    if actions == [] {
      assert false;
    } else {
      var n, init := |actions| - 1, actions[..|actions| - 1];
      assert init + [actions[n]] == actions;
      if WorksOn(Exec(m, s, init), t, call) {
        called := CallOf(m, s, init, t, call);
        WorkStays(Trace(m, s, init), Exec(m, s, actions), init, actions[n], t, call, called, n);
      } else {
        WorkStarts(m, Exec(m, s, init), actions[n], t, call);
        called := n;
      }
    }
  }

  /** The `j`-th logged operation was made by thread `t` at step `called` and written at step `point`, where it became
      the last of the log and turned the data into what it makes of them. */
  ghost predicate Logged(m: Mutex, states: seq<State>, actions: seq<Action>, j: int, t: nat, called: int, point: int) {
    && 0 <= point < |actions| == |states| - 1 && actions[point] == Write(t)
    && 0 <= j == |states[point].log| && |states[point + 1].log| == j + 1
    && var op := states[point + 1].log[j];
    && states[point + 1].log == states[point].log + [op]
    && states[point + 1].data == Apply(states[point].data, m.capacity, op)
    && WorkingBetween(states, actions, t, Change(op), called, point)
  }

  lemma LoggedStays(m: Mutex, states: seq<State>, last: State, actions: seq<Action>, a: Action,
                    j: int, t: nat, called: int, point: int)
    requires Logged(m, states, actions, j, t, called, point)
    ensures Logged(m, states + [last], actions + [a], j, t, called, point)
  {
    WorkStays(states, last, actions, a, t, Change(states[point + 1].log[j]), called, point);
  }

  lemma LogStep(m: Mutex, s: State, a: Action)
    requires Exclusive(m, s)
    ensures var s' := Step(m, s, a);
            s'.log == s.log ||
            (a.Write? && a.t < |s.threads| && s.threads[a.t].Loaded? && s.threads[a.t].call.Change? &&
             var op := s.threads[a.t].call.op;
             s'.log == s.log + [op] && s'.data == Apply(s.data, m.capacity, op))
  {
  }

  /** In every undisturbed run each logged operation belongs to a call: it takes effect at one step while its thread
      works on that call, in the order of the log. */
  lemma {:induction false} Linearizes(m: Mutex, s: State, actions: seq<Action>, j: int)
    returns (t: nat, called: int, point: int)
    requires m.pid != 0 && Initial(s) && Undisturbed(m, s, actions) && 0 <= j < |Exec(m, s, actions).log|
    ensures Logged(m, Trace(m, s, actions), actions, j, t, called, point)
  {
    if actions == [] {
      assert false;
    } else {
      var n, init := |actions| - 1, actions[..|actions| - 1];
      UndisturbedPrefix(m, s, actions);
      var states, before := Trace(m, s, init), Exec(m, s, init);
      MutualExclusion(m, s, init);
      LogStep(m, before, actions[n]);
      assert init + [actions[n]] == actions;
      if j < |before.log| {
        t, called, point := Linearizes(m, s, init, j);
        LoggedStays(m, states, Exec(m, s, actions), init, actions[n], j, t, called, point);
      } else {
        t, point := actions[n].t, n;
        var call := before.threads[t].call;
        called := CallOf(m, s, init, t, call);
        WorkStays(states, Exec(m, s, actions), init, actions[n], t, call, called, n);
      }
    }
  }

  lemma UndisturbedPrefix(m: Mutex, s: State, actions: seq<Action>)
    requires Undisturbed(m, s, actions) && actions != []
    ensures Undisturbed(m, s, actions[..|actions| - 1])
  {
    var init := actions[..|actions| - 1];
    assert forall k :: 0 <= k <= |init| ==> init[..k] == actions[..k];
  }

  predicate IsFinished(s: State, t: nat, op: PidOp) {
    t < |s.threads| && s.threads[t] == Finished(Change(op), {})
  }

  lemma FinishStarts(m: Mutex, s: State, a: Action, t: nat, op: PidOp)
    requires Exclusive(m, s) && IsFinished(Step(m, s, a), t, op) && !IsFinished(s, t, op)
    ensures a == Write(t) && WorksOn(s, t, Change(op))
    ensures Step(m, s, a).log == s.log + [op] && Step(m, s, a).data == Apply(s.data, m.capacity, op)
  {
  }

  /** As `Logged`, for the operation `op`, with the thread finished from then on up to state `until`. */
  ghost predicate DoneUntil(m: Mutex, states: seq<State>, actions: seq<Action>, op: PidOp,
                            j: int, t: nat, called: int, point: int, until: int) {
    && Logged(m, states, actions, j, t, called, point) && states[point + 1].log[j] == op
    && point < until < |states| && forall k :: point < k <= until ==> IsFinished(states[k], t, op)
  }

  lemma DoneStays(m: Mutex, states: seq<State>, last: State, actions: seq<Action>, a: Action, op: PidOp,
                  j: int, t: nat, called: int, point: int, until: int)
    requires DoneUntil(m, states, actions, op, j, t, called, point, until)
    ensures DoneUntil(m, states + [last], actions + [a], op, j, t, called, point, until)
  {
    LoggedStays(m, states, last, actions, a, j, t, called, point);
  }

  lemma DoneExtends(m: Mutex, states: seq<State>, last: State, actions: seq<Action>, a: Action, op: PidOp,
                    j: int, t: nat, called: int, point: int)
    requires DoneUntil(m, states, actions, op, j, t, called, point, |actions|) && IsFinished(last, t, op)
    ensures DoneUntil(m, states + [last], actions + [a], op, j, t, called, point, |actions| + 1)
  {
    DoneStays(m, states, last, actions, a, op, j, t, called, point, |actions|);
  }

  lemma DoneNow(m: Mutex, states: seq<State>, last: State, actions: seq<Action>, op: PidOp, t: nat, called: int)
    requires |states| == |actions| + 1 && WorkingBetween(states, actions, t, Change(op), called, |actions|)
    requires Exclusive(m, states[|actions|]) && last == Step(m, states[|actions|], Write(t))
    requires IsFinished(last, t, op) && !IsFinished(states[|actions|], t, op)
    ensures var n, j := |actions|, |states[|actions|].log|;
            DoneUntil(m, states + [last], actions + [Write(t)], op, j, t, called, n, n + 1)
  {
    FinishStarts(m, states[|actions|], Write(t), t, op);
    WorkStays(states, last, actions, Write(t), t, Change(op), called, |actions|);
  }

  lemma TraceGrows(m: Mutex, s: State, actions: seq<Action>)
    requires actions != []
    ensures var init := actions[..|actions| - 1];
            && Trace(m, s, actions) == Trace(m, s, init) + [Exec(m, s, actions)]
            && init + [actions[|actions| - 1]] == actions
  {
  }

  /** And no update is lost: in every undisturbed run a thread that is finished with an operation has logged it, at the
      step since which it is finished. */
  lemma {:induction false} FinishedIsLogged(m: Mutex, s: State, actions: seq<Action>, t: nat, op: PidOp)
    returns (j: int, called: int, point: int)
    requires m.pid != 0 && Initial(s) && Undisturbed(m, s, actions) && IsFinished(Exec(m, s, actions), t, op)
    ensures DoneUntil(m, Trace(m, s, actions), actions, op, j, t, called, point, |actions|)
  {
    if actions == [] {
      assert false;
    } else {
      var n, init := |actions| - 1, actions[..|actions| - 1];
      var last := Exec(m, s, actions);
      UndisturbedPrefix(m, s, actions);
      TraceGrows(m, s, actions);
      if IsFinished(Exec(m, s, init), t, op) {
        j, called, point := FinishedIsLogged(m, s, init, t, op);
        DoneExtends(m, Trace(m, s, init), last, init, actions[n], op, j, t, called, point);
      } else {
        MutualExclusion(m, s, init);
        FinishStarts(m, Exec(m, s, init), actions[n], t, op);
        called := CallOf(m, s, init, t, Change(op));
        j, point := |Exec(m, s, init).log|, n;
        DoneNow(m, Trace(m, s, init), last, init, op, t, called);
      }
    }
  }

  lemma {:induction false} DonePersists(m: Mutex, s: State, actions: seq<Action>, k: int, op: PidOp,
                                        j: int, t: nat, called: int, point: int)
    requires 0 <= k <= |actions|
    requires DoneUntil(m, Trace(m, s, actions[..k]), actions[..k], op, j, t, called, point, k)
    ensures DoneUntil(m, Trace(m, s, actions), actions, op, j, t, called, point, k)
  {
    if k < |actions| {
      var n, init := |actions| - 1, actions[..|actions| - 1];
      assert init[..k] == actions[..k];
      DonePersists(m, s, init, k, op, j, t, called, point);
      TraceGrows(m, s, actions);
      DoneStays(m, Trace(m, s, init), Exec(m, s, actions), init, actions[n], op, j, t, called, point, k);
    } else {
      assert actions[..k] == actions;
    }
  }

  /** So every call that has unlocked is in the log of the whole run. */
  lemma {:induction false} UnlockedIsLogged(m: Mutex, s: State, actions: seq<Action>, k: int, t: nat, op: PidOp)
    returns (j: int, called: int, point: int)
    requires m.pid != 0 && Initial(s) && Undisturbed(m, s, actions)
    requires 0 <= k < |actions| && actions[k] == Unlock(t) && IsFinished(Exec(m, s, actions[..k]), t, op)
    ensures DoneUntil(m, Trace(m, s, actions), actions, op, j, t, called, point, k)
  {
    assert forall i :: 0 <= i <= k ==> actions[..k][..i] == actions[..i];
    j, called, point := FinishedIsLogged(m, s, actions[..k], t, op);
    DonePersists(m, s, actions, k, op, j, t, called, point);
  }

  lemma {:induction false} TraceStep(m: Mutex, s: State, actions: seq<Action>, k: int)
    requires 0 <= k < |actions|
    ensures Trace(m, s, actions)[k + 1] == Step(m, Trace(m, s, actions)[k], actions[k])
  {
    if k < |actions| - 1 {
      TraceStep(m, s, actions[..|actions| - 1], k);
    }
  }

  /** And no call is logged twice. */
  lemma {:induction false} LoggedOnce(m: Mutex, s: State, actions: seq<Action>,
                                      t: nat, called: int, i: int, point: int, j: int, point': int)
    requires Logged(m, Trace(m, s, actions), actions, i, t, called, point)
    requires Logged(m, Trace(m, s, actions), actions, j, t, called, point')
    ensures i == j && point == point'
  {
    TraceStep(m, s, actions, point);
    TraceStep(m, s, actions, point');
  }

  /** The order of the log respects real time: of two logged operations the one called after the other's point is
      later. */
  lemma {:induction false} RealTimeOrder(m: Mutex, s: State, actions: seq<Action>,
                                         i: int, t: nat, called: int, point: int,
                                         j: int, t': nat, called': int, point': int)
    requires Logged(m, Trace(m, s, actions), actions, i, t, called, point)
    requires Logged(m, Trace(m, s, actions), actions, j, t', called', point')
    requires point <= called'
    ensures i < j
  {
    LogGrows(m, s, actions, point + 1, point');
  }

  lemma {:induction false} LogGrows(m: Mutex, s: State, actions: seq<Action>, k: int, l: int)
    requires 0 <= k <= l <= |actions|
    ensures |Trace(m, s, actions)[k].log| <= |Trace(m, s, actions)[l].log|
  {
    if k < l {
      if l < |actions| {
        LogGrows(m, s, actions[..|actions| - 1], k, l);
      } else {
        LogGrows(m, s, actions[..|actions| - 1], k, l - 1);
      }
    }
  }

  /** The answer of a `get_all_pids` is what the operations logged so far produce, at one step of its call. */
  ghost predicate Answered(m: Mutex, states: seq<State>, actions: seq<Action>,
                           t: nat, answer: set<nat>, called: int, point: int) {
    && 0 <= point < |actions| == |states| - 1 && actions[point] == Read(t)
    && WorkingBetween(states, actions, t, GetAll, called, point)
    && answer == states[point].data == Run({}, m.capacity, states[point].log)
  }

  lemma AnsweredStays(m: Mutex, states: seq<State>, last: State, actions: seq<Action>, a: Action,
                      t: nat, answer: set<nat>, called: int, point: int)
    requires Answered(m, states, actions, t, answer, called, point)
    ensures Answered(m, states + [last], actions + [a], t, answer, called, point)
  {
    WorkStays(states, last, actions, a, t, GetAll, called, point);
  }

  predicate Knows(s: State, t: nat, answer: set<nat>) {
    t < |s.threads| && (s.threads[t] == Loaded(GetAll, answer) || s.threads[t] == Finished(GetAll, answer))
  }

  lemma KnowledgeStarts(m: Mutex, s: State, a: Action, t: nat, answer: set<nat>)
    requires Knows(Step(m, s, a), t, answer) && !Knows(s, t, answer)
    ensures a == Read(t) && WorksOn(s, t, GetAll) && answer == s.data
  {
  }

  /** In every undisturbed run the answer of every `get_all_pids` is the set after a prefix of the sequential order. */
  lemma {:induction false} AnswersLinearize(m: Mutex, s: State, actions: seq<Action>, t: nat, answer: set<nat>)
    returns (called: int, point: int)
    requires m.pid != 0 && Initial(s) && Undisturbed(m, s, actions) && Knows(Exec(m, s, actions), t, answer)
    ensures Answered(m, Trace(m, s, actions), actions, t, answer, called, point)
  {
    if actions == [] {
      assert false;
    } else {
      var n, init := |actions| - 1, actions[..|actions| - 1];
      UndisturbedPrefix(m, s, actions);
      var states, before := Trace(m, s, init), Exec(m, s, init);
      MutualExclusion(m, s, init);
      assert init + [actions[n]] == actions;
      if Knows(before, t, answer) {
        called, point := AnswersLinearize(m, s, init, t, answer);
        AnsweredStays(m, states, Exec(m, s, actions), init, actions[n], t, answer, called, point);
      } else {
        KnowledgeStarts(m, before, actions[n], t, answer);
        point := n;
        called := CallOf(m, s, init, t, GetAll);
        WorkStays(states, Exec(m, s, actions), init, actions[n], t, GetAll, called, n);
      }
    }
  }
}
