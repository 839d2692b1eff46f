/** crates/utils/src/keyed_lock.rs: a lock per key, kept in a map of weak references that drop their entry when the
    last guard goes, as interleaved steps of any number of tasks.

    A mutex is known by its allocation number. Its strong count is what the tasks hold: two references while a task
    waits for it or holds it (`arc` inside the lock future or the owned guard, and `arc_clone`), one once the guard or
    the future is gone. */
module KeyedLocks {
  type Key = nat

  datatype Task =
    | Idle
    | Waiting(key: Key, mutex: nat)    // got the mutex from the map, waits in `lock_owned`
    | Guarding(key: Key, mutex: nat)   // holds the keyed guard
    | Unlocked(key: Key, mutex: nat)   // in `drop`: mutex released, the owned guard's reference not dropped yet
    | Released(key: Key, mutex: nat)   // in `drop`: that reference dropped, strong count not tested yet
    | Removing(key: Key, mutex: nat)   // in `drop`: strong count was 1, map entry not removed yet
    | Retired(key: Key, mutex: nat)    // only the last reference is left to drop

  datatype State = State(locks: map<Key, nat>, next: nat, tasks: seq<Task>)

  datatype Action =
    | Lock(t: nat, key: Key)   // `get_or_create_lock`, one turn of its loop
    | Acquire(t: nat)          // the mutex is granted
    | Cancel(t: nat)           // the waiting future is dropped, and the lock request in it
    | Unlock(t: nat)           // drop, first line: the mutex is released
    | Release(t: nat)          // drop, first line: then the owned guard's reference goes
    | TestCount(t: nat)        // drop, `strong_count == 1`
    | RemoveEntry(t: nat)      // drop, `locks.remove`
    | DropArc(t: nat)          // drop, the field goes away

  function Arcs(task: Task, mutex: nat): nat {
    if task.Idle? || task.mutex != mutex then 0
    else if task.Waiting? || task.Guarding? || task.Unlocked? then 2
    else 1
  }

  function StrongCount(tasks: seq<Task>, mutex: nat): nat {
    if tasks == [] then 0 else StrongCount(tasks[..|tasks| - 1], mutex) + Arcs(tasks[|tasks| - 1], mutex)
  }

  predicate Locked(s: State, mutex: nat) {
    exists t :: 0 <= t < |s.tasks| && s.tasks[t].Guarding? && s.tasks[t].mutex == mutex
  }

  function Set(s: State, t: nat, task: Task): State
    requires t < |s.tasks|
  {
    s.(tasks := s.tasks[t := task])
  }

  /** One step; an action that its task cannot take changes nothing. `Lock` is one turn of the loop under the shard
      lock of the key: upgrade a live entry, remove a dead one and stay, or insert a new mutex. */
  function Step(s: State, a: Action): State {
    if a.t >= |s.tasks| then s else
    match (a, s.tasks[a.t])
    case (Lock(t, key), Idle) =>
      if key !in s.locks then
        Set(s, t, Waiting(key, s.next)).(locks := s.locks[key := s.next], next := s.next + 1)
      else if StrongCount(s.tasks, s.locks[key]) > 0 then
        Set(s, t, Waiting(key, s.locks[key]))
      else
        s.(locks := s.locks - {key})
    case (Acquire(t), Waiting(key, mutex)) =>
      if Locked(s, mutex) then s else Set(s, t, Guarding(key, mutex))
    case (Cancel(t), Waiting(key, mutex)) => Set(s, t, Retired(key, mutex))
    case (Unlock(t), Guarding(key, mutex)) => Set(s, t, Unlocked(key, mutex))
    case (Release(t), Unlocked(key, mutex)) => Set(s, t, Released(key, mutex))
    case (TestCount(t), Released(key, mutex)) =>
      Set(s, t, if StrongCount(s.tasks, mutex) == 1 then Removing(key, mutex) else Retired(key, mutex))
    case (RemoveEntry(t), Removing(key, mutex)) => Set(s, t, Retired(key, mutex)).(locks := s.locks - {key})
    case (DropArc(t), Retired(key, mutex)) => Set(s, t, Idle)
    case _ => s
  }

  function Exec(s: State, actions: seq<Action>): State {
    if actions == [] then s else Step(Exec(s, actions[..|actions| - 1]), actions[|actions| - 1])
  }

  predicate Initial(s: State) {
    s.locks == map[] && forall t :: 0 <= t < |s.tasks| ==> s.tasks[t].Idle?
  }

  predicate Active(s: State, t: int) {
    0 <= t < |s.tasks| && (s.tasks[t].Waiting? || s.tasks[t].Guarding?)
  }

  predicate Guards(s: State, t: int) {
    0 <= t < |s.tasks| && s.tasks[t].Guarding?
  }

  /** A task that waits for a mutex or holds it uses the mutex the map has for its key, and no mutex has two holders. */
  ghost predicate Coherent(s: State) {
    && (forall t :: Active(s, t) ==> s.tasks[t].key in s.locks && s.locks[s.tasks[t].key] == s.tasks[t].mutex)
    && (forall t, u :: Guards(s, t) && Guards(s, u) && s.tasks[t].mutex == s.tasks[u].mutex ==> t == u)
    && (forall k :: k in s.locks ==> s.locks[k] < s.next)
    && (forall j, k :: j in s.locks && k in s.locks && s.locks[j] == s.locks[k] ==> j == k)
  }

  ghost predicate OneGuardPerKey(s: State) {
    forall t, u :: Guards(s, t) && Guards(s, u) && s.tasks[t].key == s.tasks[u].key ==> t == u
  }

  /** The removal in `drop` takes away an entry whose mutex another task waits for or holds. */
  ghost predicate RemovesLiveEntry(s: State, a: Action) {
    && a.RemoveEntry? && a.t < |s.tasks| && s.tasks[a.t].Removing?
    && exists u :: Active(s, u) && s.tasks[u].key == s.tasks[a.t].key
  }

  ghost predicate RemovesNoLiveEntry(s: State, actions: seq<Action>) {
    forall k :: 0 <= k < |actions| ==> !RemovesLiveEntry(Exec(s, actions[..k]), actions[k])
  }

  /** Two different tasks together hold no more references to a mutex than its strong count. */
  lemma {:induction false} CountsTasks(tasks: seq<Task>, mutex: nat, t: nat, u: nat)
    requires t < |tasks| && u < |tasks|
    ensures StrongCount(tasks, mutex) >= Arcs(tasks[t], mutex) + (if t == u then 0 else Arcs(tasks[u], mutex))
  {
    var last := |tasks| - 1;
    if t < last && u < last {
      CountsTasks(tasks[..last], mutex, t, u);
    } else if t < last {
      CountsTasks(tasks[..last], mutex, t, t);
    } else if u < last {
      CountsTasks(tasks[..last], mutex, u, u);
    }
  }

  /** A dead entry is used by nobody. */
  lemma DeadEntry(s: State, key: Key)
    requires Coherent(s) && key in s.locks && StrongCount(s.tasks, s.locks[key]) == 0
    ensures forall u :: Active(s, u) ==> s.tasks[u].key != key
  {
    forall u | Active(s, u)
      ensures s.tasks[u].key != key
    {
      CountsTasks(s.tasks, s.locks[key], u, u);
    }
  }

  /** A step changes its own task alone, and grants a mutex only when nobody holds it. */
  lemma TasksOfOthers(s: State, a: Action, t: int)
    ensures t != a.t ==> (Active(Step(s, a), t) <==> Active(s, t)) && (Guards(Step(s, a), t) <==> Guards(s, t))
    ensures t != a.t && Active(s, t) ==> Step(s, a).tasks[t] == s.tasks[t]
    ensures t == a.t && Guards(Step(s, a), t) && !Guards(s, t) ==>
              Active(s, t) && Step(s, a).tasks[t].mutex == s.tasks[t].mutex && !Locked(s, s.tasks[t].mutex)
    ensures t == a.t && Guards(Step(s, a), t) && Guards(s, t) ==> Step(s, a).tasks[t] == s.tasks[t]
  {
  }

  lemma {:induction false} StepKeepsUses(s: State, a: Action)
    requires Coherent(s) && !RemovesLiveEntry(s, a)
    ensures var s' := Step(s, a);
            forall t :: Active(s', t) ==> s'.tasks[t].key in s'.locks && s'.locks[s'.tasks[t].key] == s'.tasks[t].mutex
  {
    var s' := Step(s, a);
    if a.Lock? && a.key in s.locks && StrongCount(s.tasks, s.locks[a.key]) == 0 {
      DeadEntry(s, a.key);
    }
    forall t | Active(s', t)
      ensures s'.tasks[t].key in s'.locks && s'.locks[s'.tasks[t].key] == s'.tasks[t].mutex
    {
      TasksOfOthers(s, a, t);
    }
  }

  lemma {:induction false} StepKeepsHolders(s: State, a: Action)
    requires Coherent(s)
    ensures var s' := Step(s, a);
            forall t, u :: Guards(s', t) && Guards(s', u) && s'.tasks[t].mutex == s'.tasks[u].mutex ==> t == u
  {
    var s' := Step(s, a);
    forall t, u | Guards(s', t) && Guards(s', u) && s'.tasks[t].mutex == s'.tasks[u].mutex
      ensures t == u
    {
      TasksOfOthers(s, a, t);
      TasksOfOthers(s, a, u);
    }
  }

  lemma {:induction false} StepKeepsCoherence(s: State, a: Action)
    requires Coherent(s) && !RemovesLiveEntry(s, a)
    ensures Coherent(Step(s, a))
  {
    StepKeepsUses(s, a);
    StepKeepsHolders(s, a);
  }

  /** In every run, as long as no removal in `drop` hits an entry in use, each key has at most one guard. */
  lemma {:induction false} OneGuard(s: State, actions: seq<Action>)
    requires Initial(s) && RemovesNoLiveEntry(s, actions)
    ensures Coherent(Exec(s, actions))
    ensures OneGuardPerKey(Exec(s, actions))
  {
    if actions != [] {
      var before := actions[..|actions| - 1];
      forall k | 0 <= k < |before|
        ensures !RemovesLiveEntry(Exec(s, before[..k]), before[k])
      {
        assert before[..k] == actions[..k];
      }
      OneGuard(s, before);
      StepKeepsCoherence(Exec(s, before), actions[|actions| - 1]);
    }
    assert forall t :: Guards(Exec(s, actions), t) ==> Active(Exec(s, actions), t);
  }

  /** And a guard that unlocks lets any other task that waits for the key go on. */
  lemma {:induction false} UnlockGrants(s: State, actions: seq<Action>, t: nat, u: nat)
    requires Initial(s) && RemovesNoLiveEntry(s, actions)
    requires var now := Exec(s, actions);
             && Guards(now, t) && u < |now.tasks| && now.tasks[u].Waiting? && now.tasks[u].key == now.tasks[t].key
    ensures var now := Exec(s, actions);
            !Guards(Step(now, Acquire(u)), u) && Guards(Step(Step(now, Unlock(t)), Acquire(u)), u)
  {
    var now := Exec(s, actions);
    OneGuard(s, actions);
    assert Active(now, t) && Active(now, u);
    var mutex, unlocked := now.tasks[t].mutex, Step(now, Unlock(t));
    assert Locked(now, mutex) && now.tasks[u].mutex == mutex;
    forall v | 0 <= v < |unlocked.tasks| && unlocked.tasks[v].Guarding?
      ensures unlocked.tasks[v].mutex != mutex
    {
      assert Guards(now, v) && v != t;
    }
    assert !Locked(unlocked, mutex);
  }

  ghost predicate Reaches(s: State, s': State) {
    exists actions :: Exec(s, actions) == s'
  }

  lemma {:induction false} ReachesStep(s: State, s': State, a: Action)
    requires Reaches(s, s')
    ensures Reaches(s, Step(s', a))
  {
    var actions :| Exec(s, actions) == s';
    assert (actions + [a])[..|actions|] == actions;
    assert Exec(s, actions + [a]) == Step(s', a);
  }

  lemma ReachesSelf(s: State)
    ensures Reaches(s, s)
  {
    assert Exec(s, []) == s;
  }

  /** After some task is granted the mutex or finds it taken, some task holds it. */
  lemma AcquireLocks(s: State, u: nat) returns (g: nat)
    requires Active(s, u)
    ensures Guards(Step(s, Acquire(u)), g) && Step(s, Acquire(u)).tasks[g].mutex == s.tasks[u].mutex
    ensures Active(s, g) && Step(s, Acquire(u)).tasks[g].key == s.tasks[g].key
  {
    if s.tasks[u].Waiting? && Locked(s, s.tasks[u].mutex) {
      g :| Guards(s, g) && s.tasks[g].mutex == s.tasks[u].mutex;
    } else {
      g := u;
    }
  }

  /** A task whose key has no entry makes a mutex of its own, and is granted it. */
  lemma TakeFresh(s: State, t: nat, key: Key)
    requires t < |s.tasks| && s.tasks[t].Retired? && key !in s.locks
    requires forall u :: Guards(s, u) ==> s.tasks[u].mutex < s.next
    ensures exists s' :: Reaches(s, s') && s'.tasks == s.tasks[t := Guarding(key, s.next)]
  {
    var s1 := Set(s, t, Idle);
    var s2 := State(s.locks[key := s.next], s.next + 1, s.tasks[t := Waiting(key, s.next)]);
    var s3 := State(s.locks[key := s.next], s.next + 1, s.tasks[t := Guarding(key, s.next)]);
    ReachesSelf(s);
    ReachesStep(s, s, DropArc(t));
    ReachesStep(s, s1, Lock(t, key));
    assert Step(s1, Lock(t, key)) == s2;
    assert !Locked(s2, s.next) by {
      assert forall u :: Guards(s2, u) ==> Guards(s, u) && s2.tasks[u] == s.tasks[u];
    }
    ReachesStep(s, s2, Acquire(t));
    assert Step(s2, Acquire(t)) == s3;
  }

  /** The converse: once a removal hits an entry that task `u` uses, the removing task can come back, find no entry,
      make a new mutex and hold the same key beside `u` or beside whoever keeps `u` waiting. */
  lemma {:induction false} LiveRemovalBreaksExclusion(s: State, a: Action)
    requires Coherent(s) && RemovesLiveEntry(s, a)
    ensures exists s' :: Reaches(Step(s, a), s') && !OneGuardPerKey(s')
  {
    var t, key := a.t, s.tasks[a.t].key;
    var u :| Active(s, u) && s.tasks[u].key == key;
    var s1 := State(s.locks - {key}, s.next, s.tasks[t := Retired(key, s.tasks[t].mutex)]);
    assert Step(s, a) == s1;
    assert Active(s1, u);
    var g := AcquireLocks(s1, u);
    var s2 := Step(s1, Acquire(u));
    assert Active(s, g) && s.locks[s.tasks[g].key] == s.locks[key];
    forall v | Guards(s2, v)
      ensures s2.tasks[v].mutex < s2.next
    {
      assert Active(s, v);
    }
    TakeFresh(s2, t, key);
    var s3 :| Reaches(s2, s3) && s3.tasks == s2.tasks[t := Guarding(key, s2.next)];
    assert Guards(s3, t) && Guards(s3, g);
    ReachesSelf(s1);
    ReachesStep(s1, s1, Acquire(u));
    ReachesVia(s1, s2, s3);
  }

  lemma {:induction false} ReachesVia(s: State, s': State, s'': State)
    requires Reaches(s, s') && Reaches(s', s'')
    ensures Reaches(s, s'')
  {
    var first :| Exec(s, first) == s';
    var rest :| Exec(s', rest) == s'';
    ExecAppend(s, first, rest);
  }

  // The test of the strong count and the removal, not separated by a lock of the same key.

  /** The task has a reference it still means to use: it is neither idle nor retired. */
  predicate Refers(task: Task) {
    !task.Idle? && !task.Retired?
  }

  predicate Mapped(s: State, task: Task) {
    Refers(task) ==> task.key in s.locks && s.locks[task.key] == task.mutex
  }

  /** Nobody else has a reference to the mutex whose entry task `t` is about to remove. */
  predicate Alone(s: State, t: int) {
    0 <= t < |s.tasks| && s.tasks[t].Removing? ==>
      forall u :: 0 <= u < |s.tasks| && u != t ==> Arcs(s.tasks[u], s.tasks[t].mutex) == 0
  }

  /** All references in use point to the one mutex that the map has for their key. */
  ghost predicate AllMapped(s: State) {
    && Coherent(s)
    && (forall t :: 0 <= t < |s.tasks| ==> Mapped(s, s.tasks[t]))
    && (forall t :: Alone(s, t))
  }

  /** A task locks a key while another is between the test of its strong count and the removal of its entry. */
  ghost predicate Intervenes(s: State, a: Action) {
    && a.Lock? && a.t < |s.tasks| && s.tasks[a.t].Idle?
    && exists t :: 0 <= t < |s.tasks| && s.tasks[t].Removing? && s.tasks[t].key == a.key
  }

  ghost predicate NobodyIntervenes(s: State, actions: seq<Action>) {
    forall k :: 0 <= k < |actions| ==> !Intervenes(Exec(s, actions[..k]), actions[k])
  }

  lemma AloneRemovesNoLiveEntry(s: State, a: Action)
    requires AllMapped(s)
    ensures !RemovesLiveEntry(s, a)
  {
    if a.t < |s.tasks| {
      assert Alone(s, a.t) && Mapped(s, s.tasks[a.t]);
    }
  }

  lemma {:induction false} StepKeepsMapped(s: State, a: Action, t: int)
    requires AllMapped(s) && !Intervenes(s, a) && 0 <= t < |s.tasks|
    ensures Mapped(Step(s, a), Step(s, a).tasks[t])
  {
    assert Mapped(s, s.tasks[t]);
    if a.Lock? && a.key in s.locks && StrongCount(s.tasks, s.locks[a.key]) == 0 {
      CountsTasks(s.tasks, s.locks[a.key], t, t);
    }
    if a.t < |s.tasks| {
      assert Mapped(s, s.tasks[a.t]) && Alone(s, a.t);
    }
  }

  lemma {:induction false} StepKeepsAlone(s: State, a: Action, t: int)
    requires AllMapped(s) && !Intervenes(s, a)
    ensures Alone(Step(s, a), t)
  {
    if 0 <= t < |s.tasks| && a.t < |s.tasks| && Step(s, a).tasks[t].Removing? {
      assert Alone(s, t) && Mapped(s, s.tasks[t]);
      if t == a.t {
        forall u | 0 <= u < |s.tasks| && u != t && a.TestCount?
          ensures Arcs(s.tasks[u], s.tasks[t].mutex) == 0
        {
          CountsTasks(s.tasks, s.tasks[t].mutex, t, u);
        }
      }
    }
  }

  lemma {:induction false} StepKeepsAllMapped(s: State, a: Action)
    requires AllMapped(s) && !Intervenes(s, a)
    ensures AllMapped(Step(s, a))
  {
    AloneRemovesNoLiveEntry(s, a);
    StepKeepsCoherence(s, a);
    forall t | 0 <= t < |s.tasks|
      ensures Mapped(Step(s, a), Step(s, a).tasks[t])
    {
      StepKeepsMapped(s, a, t);
    }
    forall t: int
      ensures Alone(Step(s, a), t)
    {
      StepKeepsAlone(s, a, t);
    }
  }

  /** In every run in which nobody locks a key between the test and the removal of another task's `drop` of that key:
      all references in use point to the mutex in the map, and each key has at most one guard. */
  lemma {:induction false} UnseparatedDropIsSafe(s: State, actions: seq<Action>)
    requires Initial(s) && NobodyIntervenes(s, actions)
    ensures AllMapped(Exec(s, actions))
    ensures OneGuardPerKey(Exec(s, actions))
  {
    if actions != [] {
      var before := actions[..|actions| - 1];
      assert forall k :: 0 <= k <= |before| ==> before[..k] == actions[..k];
      UnseparatedDropIsSafe(s, before);
      StepKeepsAllMapped(Exec(s, before), actions[|actions| - 1]);
    }
    assert forall t :: Guards(Exec(s, actions), t) ==> Active(Exec(s, actions), t);
  }

  /** In such a run no removal hits an entry in use either, so it is one of those of `OneGuard`. */
  lemma {:induction false} UnseparatedRemovesNoLiveEntry(s: State, actions: seq<Action>)
    requires Initial(s) && NobodyIntervenes(s, actions)
    ensures RemovesNoLiveEntry(s, actions)
  {
    forall k | 0 <= k < |actions|
      ensures !RemovesLiveEntry(Exec(s, actions[..k]), actions[k])
    {
      assert forall j :: 0 <= j <= k ==> actions[..k][..j] == actions[..j];
      UnseparatedDropIsSafe(s, actions[..k]);
      AloneRemovesNoLiveEntry(Exec(s, actions[..k]), actions[k]);
    }
  }

  /** The converse: as soon as one does, two guards of the key can follow. */
  lemma {:induction false} InterveningLockBreaksExclusion(s: State, a: Action)
    requires AllMapped(s) && Intervenes(s, a)
    ensures exists s' :: Reaches(Step(s, a), s') && !OneGuardPerKey(s')
  {
    var t: nat :| t < |s.tasks| && s.tasks[t].Removing? && s.tasks[t].key == a.key;
    assert Mapped(s, s.tasks[t]);
    CountsTasks(s.tasks, s.tasks[t].mutex, t, t);
    var s1 := Step(s, a);
    assert s1 == Set(s, a.t, Waiting(a.key, s.tasks[t].mutex));
    StepKeepsCoherence(s, a);
    assert Active(s1, a.t);
    LiveRemovalBreaksExclusion(s1, RemoveEntry(t));
    var s' :| Reaches(Step(s1, RemoveEntry(t)), s') && !OneGuardPerKey(s');
    ReachesSelf(s1);
    ReachesStep(s1, s1, RemoveEntry(t));
    ReachesVia(s1, Step(s1, RemoveEntry(t)), s');
  }

  /** The source has nothing against it: from any initial state with two tasks, two guards of a key are reachable. */
  lemma DropRace(s: State, key: Key)
    requires Initial(s) && |s.tasks| >= 2
    ensures exists s' :: Reaches(s, s') && !OneGuardPerKey(s')
  {
    var s4 := UntilTest(s, key);
    assert s4.tasks[1].Idle? && s4.tasks[0].Removing?;
    assert forall t :: 0 < t < |s4.tasks| ==> s4.tasks[t].Idle?;
    InterveningLockBreaksExclusion(s4, Lock(1, key));
    var s' :| Reaches(Step(s4, Lock(1, key)), s') && !OneGuardPerKey(s');
    ReachesStep(s, s4, Lock(1, key));
    ReachesVia(s, Step(s4, Lock(1, key)), s');
  }

  /** Task 0 locks and drops alone, up to the test of the strong count. */
  lemma UntilTest(s: State, key: Key) returns (s4: State)
    requires Initial(s) && |s.tasks| >= 2
    ensures s4 == State(map[key := s.next], s.next + 1, s.tasks[0 := Removing(key, s.next)])
    ensures Reaches(s, s4)
  {
    var s1 := State(map[key := s.next], s.next + 1, s.tasks[0 := Waiting(key, s.next)]);
    ReachesSelf(s);
    ReachesStep(s, s, Lock(0, key));
    assert Step(s, Lock(0, key)) == s1;
    var s2 := TakesAndReleases(s, s1, 0);
    CountAlone(s2.tasks, s.next, 0);
    ReachesStep(s, s2, TestCount(0));
    s4 := Step(s2, TestCount(0));
    assert s4.tasks == s.tasks[0 := Removing(key, s.next)];
  }

  lemma {:induction false} ExecAppend(s: State, first: seq<Action>, rest: seq<Action>)
    ensures Exec(s, first + rest) == Exec(Exec(s, first), rest)
  {
    if rest == [] {
      assert first + rest == first;
    } else {
      ExecAppend(s, first, rest[..|rest| - 1]);
      assert (first + rest)[..|first + rest| - 1] == first + rest[..|rest| - 1];
    }
  }

  /** What the strong count is when one task alone holds references. */
  lemma {:induction false} CountAlone(tasks: seq<Task>, mutex: nat, t: nat)
    requires t < |tasks| && forall u :: 0 <= u < |tasks| && u != t ==> Arcs(tasks[u], mutex) == 0
    ensures StrongCount(tasks, mutex) == Arcs(tasks[t], mutex)
  {
    var last := |tasks| - 1;
    if t < last {
      CountAlone(tasks[..last], mutex, t);
    } else {
      CountNone(tasks[..last], mutex);
    }
  }

  lemma {:induction false} CountNone(tasks: seq<Task>, mutex: nat)
    requires forall u :: 0 <= u < |tasks| ==> Arcs(tasks[u], mutex) == 0
    ensures StrongCount(tasks, mutex) == 0
  {
    if tasks != [] {
      CountNone(tasks[..|tasks| - 1], mutex);
    }
  }

  // Cleaning up.

  /** Even with nothing between test and removal, a drop removes the entry exactly when no other task has a reference
      left, be it one that has itself found the count too high, or was cancelled, and is only about to let go. */
  lemma {:induction false} CleansUpIffAlone(s: State, t: nat)
    requires AllMapped(s) && t < |s.tasks| && s.tasks[t].Released?
    ensures s.tasks[t].key !in Step(Step(s, TestCount(t)), RemoveEntry(t)).locks <==>
            forall u :: 0 <= u < |s.tasks| && u != t ==> Arcs(s.tasks[u], s.tasks[t].mutex) == 0
  {
    var mutex := s.tasks[t].mutex;
    assert Mapped(s, s.tasks[t]);
    if forall u :: 0 <= u < |s.tasks| && u != t ==> Arcs(s.tasks[u], mutex) == 0 {
      CountAlone(s.tasks, mutex, t);
    } else {
      var u: nat :| u < |s.tasks| && u != t && Arcs(s.tasks[u], mutex) != 0;
      CountsTasks(s.tasks, mutex, t, u);
    }
  }

  /** So the last guard may go without its entry: two tasks let go of one key, each while the other still has a
      reference, and the entry stays behind when all tasks are idle. */
  lemma EntryLeftBehind(s: State, key: Key)
    requires Initial(s) && |s.tasks| >= 2
    ensures exists s' :: Reaches(s, s') && key in s'.locks && s'.tasks == s.tasks
  {
    var s1 := BothReleased(s, key);
    var m := s.next;
    var s2 := s1.(tasks := s1.tasks[1 := Retired(key, m)]);
    CountsTasks(s1.tasks, m, 1, 0);
    ReachesStep(s, s1, TestCount(1));
    assert Step(s1, TestCount(1)) == s2;
    var s3 := s2.(tasks := s2.tasks[0 := Idle]);
    ReachesStep(s, s2, DropArc(0));
    assert Step(s2, DropArc(0)) == s3;
    ReachesStep(s, s3, DropArc(1));
    assert s3.tasks[1 := Idle] == s.tasks;
    assert Step(s3, DropArc(1)) == s3.(tasks := s.tasks);
  }

  lemma BothWait(s: State, key: Key) returns (s': State)
    requires Initial(s) && |s.tasks| >= 2
    ensures s' == State(map[key := s.next], s.next + 1, s.tasks[0 := Waiting(key, s.next)][1 := Waiting(key, s.next)])
    ensures Reaches(s, s')
  {
    var s1 := State(map[key := s.next], s.next + 1, s.tasks[0 := Waiting(key, s.next)]);
    ReachesSelf(s);
    ReachesStep(s, s, Lock(0, key));
    assert Step(s, Lock(0, key)) == s1;
    CountAlone(s1.tasks, s.next, 0);
    s' := s1.(tasks := s1.tasks[1 := Waiting(key, s.next)]);
    ReachesStep(s, s1, Lock(1, key));
    assert Step(s1, Lock(1, key)) == s';
  }

  /** A task that waits for a free mutex takes it and releases it. */
  lemma TakesAndReleases(s: State, s1: State, t: nat) returns (s': State)
    requires Reaches(s, s1) && t < |s1.tasks| && s1.tasks[t].Waiting? && !Locked(s1, s1.tasks[t].mutex)
    ensures Reaches(s, s') && s' == s1.(tasks := s1.tasks[t := Released(s1.tasks[t].key, s1.tasks[t].mutex)])
  {
    ReachesStep(s, s1, Acquire(t));
    var s2 := Step(s1, Acquire(t));
    ReachesStep(s, s2, Unlock(t));
    var s3 := Step(s2, Unlock(t));
    ReachesStep(s, s3, Release(t));
    s' := Step(s3, Release(t));
  }

  /** Task 1 waits while task 0 holds the lock and tests the count, then takes the lock and releases it in turn. */
  lemma BothReleased(s: State, key: Key) returns (s': State)
    requires Initial(s) && |s.tasks| >= 2
    ensures s' == State(map[key := s.next], s.next + 1, s.tasks[0 := Retired(key, s.next)][1 := Released(key, s.next)])
    ensures Reaches(s, s')
  {
    var s1 := BothWait(s, key);
    var s2 := TakesAndReleases(s, s1, 0);
    CountsTasks(s2.tasks, s.next, 0, 1);
    ReachesStep(s, s2, TestCount(0));
    var s3 := s2.(tasks := s2.tasks[0 := Retired(key, s.next)]);
    assert Step(s2, TestCount(0)) == s3;
    s' := TakesAndReleases(s, s3, 1);
    assert s'.tasks == s.tasks[0 := Retired(key, s.next)][1 := Released(key, s.next)];
  }

  /** The next task that locks such a key removes the dead entry and makes a new mutex. */
  lemma DeadEntryIsReplaced(s: State, t: nat, key: Key)
    requires t < |s.tasks| && s.tasks[t].Idle? && key in s.locks && StrongCount(s.tasks, s.locks[key]) == 0
    ensures var s' := Step(Step(s, Lock(t, key)), Lock(t, key));
            s'.tasks == s.tasks[t := Waiting(key, s.next)] && s'.locks == s.locks[key := s.next]
  {
    assert (s.locks - {key})[key := s.next] == s.locks[key := s.next];
  }

  /** A waiting task that is cancelled is idle again after dropping its references. It frees no mutex and removes no
      entry, so that one for which it alone waited stays behind. */
  lemma CancelledLetsGo(s: State, t: nat)
    requires t < |s.tasks| && s.tasks[t].Waiting?
    ensures Exec(s, [Cancel(t), DropArc(t)]) == Set(s, t, Idle)
    ensures forall mutex :: Locked(Exec(s, [Cancel(t), DropArc(t)]), mutex) <==> Locked(s, mutex)
  {
    var s1 := Step(s, Cancel(t));
    assert Exec(s, [Cancel(t)]) == s1 by {
      assert [Cancel(t)][..0] == [];
    }
    assert [Cancel(t), DropArc(t)][..1] == [Cancel(t)];
    var s2 := Set(s, t, Idle);
    assert s2.tasks == s1.tasks[t := Idle];
    forall mutex
      ensures Locked(s2, mutex) <==> Locked(s, mutex)
    {
      assert forall u :: 0 <= u < |s.tasks| && u != t ==> s2.tasks[u] == s.tasks[u];
    }
  }
}
