/** Registering a process with the state store, the shared pid set and the hypervisor, and undoing it. */
module PodManagerSpec {
  import opened Wrappers
  import opened PodStoreSpec
  import PidRegistries

  const MAX_PROCESSES: nat := 2048

  /** The pid set of each pod's shared segment, and the pids the hypervisor schedules. */
  datatype World<I> = World(store: Store<I>, segments: map<PodId, set<Pid>>, workers: set<Pid>)

  /** What the outside decides: whether the segment opens, and whether removing a pid from it succeeds. */
  datatype Env = Env(opens: bool, undoes: bool)

  /** And whether a segment can be removed, and whether one can be created. */
  datatype PodEnv = PodEnv(removes: bool, creates: bool)

  function AddedTo(segments: map<PodId, set<Pid>>, id: PodId, pid: Pid): Result<map<PodId, set<Pid>>, PodError> {
    if id !in segments then Err(RegistrationFailed)
    else Ok(segments[id := PidRegistries.Added(segments[id], MAX_PROCESSES, pid)])
  }

  function RemovedFrom(segments: map<PodId, set<Pid>>, id: PodId, pid: Pid, env: Env): map<PodId, set<Pid>> {
    if id in segments && env.undoes then segments[id := segments[id] - {pid}] else segments
  }

  function OpenedShm<I>(s: Store<I>, id: PodId): Store<I>
    requires id in s.pods
  {
    s.(pods := s.pods[id := s.pods[id].(shmOpen := true)])
  }

  /** `register_process_to_all_components`, with its two rollbacks. */
  function Registered<I>(w: World<I>, id: PodId, pid: Pid, env: Env): (r: (Result<(), PodError>, World<I>)) {
    match ProcessRegistered(w.store, id, pid)
    case Err(e) => (Err(e), w)
    case Ok(store) =>
      var undone := OrUnchanged(store, ProcessUnregistered(store, id, pid));
      match AddedTo(w.segments, id, pid)
      case Err(e) => (Err(e), w.(store := undone))
      case Ok(segments) =>
        if !env.opens then
          (Err(SharedMemoryError), w.(store := undone, segments := RemovedFrom(segments, id, pid, env)))
        else
          (Ok(()), World(OpenedShm(store, id), segments, w.workers + {pid}))
  }

  /** `handle_process_exited`: a failed removal from the segment is only logged. */
  function Exited<I>(w: World<I>, pid: Pid, env: Env): World<I> {
    if pid !in w.store.pidToPod then w
    else
      var id := w.store.pidToPod[pid];
      World(OrUnchanged(w.store, ProcessUnregistered(w.store, id, pid)),
            RemovedFrom(w.segments, id, pid, env), w.workers - {pid})
  }

  /** What `handle_process_exited` returns. */
  function ExitResult<I>(w: World<I>, pid: Pid): Result<(), PodError> {
    if pid in w.store.pidToPod && w.store.pidToPod[pid] !in w.store.pods then Err(PodIdentifierNotFound) else Ok(())
  }

  /** Processes found in an existing segment are registered in the store; the hypervisor does not learn of them. */
  function Restored<I>(s: Store<I>, id: PodId, pids: set<Pid>): Store<I>
    requires id in s.pods
  {
    Store(WithProcesses(s, id, s.pods[id].processes + pids),
          map pid | pid in s.pidToPod.Keys + pids :: if pid in pids then id else s.pidToPod[pid])
  }

  /** `ensure_pod_registered` of the manager, with that of the coordinator: nothing for a pod that is known as it is; a
      changed pod gets a new segment, a new pod the one that is there, or a new one. */
  function Ensured<I(==)>(w: World<I>, id: PodId, info: I, env: PodEnv): (r: (Result<(), PodError>, World<I>)) {
    var known := id in w.store.pods;
    if known && w.store.pods[id].info == info then (Ok(()), w)
    else
      var store := PodRegistered(w.store, id, info);
      if known && !env.removes then (Err(RegistrationFailed), w.(store := store))
      else
        var segments := if known then w.segments - {id} else w.segments;
        if id in segments then
          (Ok(()), w.(store := Restored(store, id, segments[id])))
        else if env.creates then
          (Ok(()), w.(store := store, segments := segments[id := {}]))
        else
          (Err(RegistrationFailed), w.(store := store, segments := segments))
  }

  /** The process is new to the store, and to the segment of the pod. */
  predicate Unknown<I>(w: World<I>, id: PodId, pid: Pid) {
    && !Has(w.store, id, pid)
    && pid !in w.store.pidToPod
    && (id in w.segments ==> pid !in w.segments[id])
  }

  /** Registering a process with a pod and unregistering it gives the store back exactly when it was new there. */
  lemma StoreRoundTrip<I>(s: Store<I>, id: PodId, pid: Pid)
    requires id in s.pods
    ensures OrUnchanged(s, ProcessUnregistered(ProcessRegistered(s, id, pid).value, id, pid)) == s <==>
            !Has(s, id, pid) && pid !in s.pidToPod
  {
    var undone := ProcessUnregistered(ProcessRegistered(s, id, pid).value, id, pid).value;
    assert undone.pods[id].processes == s.pods[id].processes - {pid};
    assert undone.pidToPod == s.pidToPod - {pid};
    if !Has(s, id, pid) && pid !in s.pidToPod {
      assert undone.pods == s.pods;
    }
  }

  lemma SegmentRoundTrip(segments: map<PodId, set<Pid>>, id: PodId, pid: Pid, env: Env)
    requires id in segments && env.undoes
    ensures RemovedFrom(AddedTo(segments, id, pid).value, id, pid, env) == segments <==> pid !in segments[id]
  {
    var undone := RemovedFrom(AddedTo(segments, id, pid).value, id, pid, env);
    assert undone[id] == segments[id] - {pid};
    if pid !in segments[id] {
      assert segments[id] - {pid} == segments[id];
      assert undone == segments;
    }
  }

  /** All or nothing: when the undo calls succeed, a failed registration on an existing pod leaves everything as it
      was exactly when the process was new. A process that was already there is rolled back out of the store. */
  lemma {:induction false} FailedRegistrationUndoes<I>(w: World<I>, id: PodId, pid: Pid, env: Env)
    requires Registered(w, id, pid, env).0.Err? && env.undoes
    ensures Registered(w, id, pid, env).1 == w <==> id !in w.store.pods || Unknown(w, id, pid)
  {
    if id in w.store.pods {
      StoreRoundTrip(w.store, id, pid);
      if id in w.segments {
        SegmentRoundTrip(w.segments, id, pid, env);
      }
    }
  }

  lemma OpenedStoreRoundTrip<I>(s: Store<I>, id: PodId, pid: Pid)
    requires id in s.pods
    ensures var s1 := OpenedShm(ProcessRegistered(s, id, pid).value, id);
            OrUnchanged(s, ProcessUnregistered(s1, id, pid)) == OpenedShm(s, id) <==>
            !Has(s, id, pid) && pid !in s.pidToPod
  {
    StoreRoundTrip(OpenedShm(s, id), id, pid);
    assert OpenedShm(ProcessRegistered(s, id, pid).value, id) == ProcessRegistered(OpenedShm(s, id), id, pid).value;
  }

  /** Registering a new process and then cleaning up after its exit gives back everything but the opened handle. */
  lemma {:induction false} ExitUndoesRegistration<I>(w: World<I>, id: PodId, pid: Pid, env: Env)
    requires Registered(w, id, pid, env).0.Ok? && env.undoes
    ensures Exited(Registered(w, id, pid, env).1, pid, env) == w.(store := OpenedShm(w.store, id)) <==>
            Unknown(w, id, pid) && pid !in w.workers
  {
    OpenedStoreRoundTrip(w.store, id, pid);
    SegmentRoundTrip(w.segments, id, pid, env);
    assert w.workers + {pid} - {pid} == w.workers - {pid};
    assert w.workers - {pid} == w.workers <==> pid !in w.workers;
  }

  /** A registration that succeeds has put the pid into the segment exactly when the segment was not full without it. */
  lemma {:induction false} RegistrationReachesSegment<I>(w: World<I>, id: PodId, pid: Pid, env: Env)
    requires Registered(w, id, pid, env).0.Ok?
    ensures pid in Registered(w, id, pid, env).1.segments[id] <==>
            pid in w.segments[id] || |w.segments[id]| < MAX_PROCESSES
  {
  }

  // Agreement of the three components over whole runs.

  datatype Event<I> =
    | Register(id: PodId, pid: Pid, env: Env)
    | Exit(pid: Pid, env: Env)
    | EnsurePod(id: PodId, info: I, podEnv: PodEnv)
    | DropPod(id: PodId)   // `unregister_pod` of the store, for a pod without processes; its segment stays

  function WorldStep<I(==)>(w: World<I>, e: Event<I>): World<I> {
    match e
    case Register(id, pid, env) => Registered(w, id, pid, env).1
    case Exit(pid, env) => Exited(w, pid, env)
    case EnsurePod(id, info, env) => Ensured(w, id, info, env).1
    case DropPod(id) => w.(store := OrUnchanged(w.store, PodUnregistered(w.store, id)))
  }

  function WorldRun<I(==)>(w: World<I>, events: seq<Event<I>>): World<I> {
    if events == [] then w else WorldStep(WorldRun(w, events[..|events| - 1]), events[|events| - 1])
  }

  /** Store, segments and hypervisor list the same processes. */
  ghost predicate Agree<I>(w: World<I>) {
    && Exact(w.store)
    && (forall id :: id in w.store.pods && id in w.segments ==> w.segments[id] == w.store.pods[id].processes)
    && (forall id :: id in w.store.pods && id !in w.segments ==> w.store.pods[id].processes == {})
    && w.workers == w.store.pidToPod.Keys
  }

  predicate Full<I>(w: World<I>, id: PodId)
    requires id in w.segments
  {
    |w.segments[id]| >= MAX_PROCESSES
  }

  /** A registration: of a new process, whose segment has room if it succeeds, and is full or gives the pid back if
      the segment does not open; or again, if it succeeds. An exit: its segment gives the pid back. A pod: one that
      changes and loses its segment has no processes, and a segment found for a new pod is empty. */
  predicate Orderly<I(==)>(w: World<I>, e: Event<I>) {
    match e
    case Register(id, pid, env) =>
      id in w.store.pods ==>
        if pid in w.store.pidToPod then w.store.pidToPod[pid] == id && env.opens
        else id in w.segments ==> if env.opens then !Full(w, id) else Full(w, id) || env.undoes
    case Exit(pid, env) => pid in w.store.pidToPod ==> env.undoes
    case EnsurePod(id, info, env) =>
      if id in w.store.pods then
        w.store.pods[id].info != info && env.removes ==> w.store.pods[id].processes == {}
      else id in w.segments ==> w.segments[id] == {}
    case DropPod(id) => true
  }

  // A registration.

  lemma {:induction false} SuccessKeepsAgreement<I>(w: World<I>, id: PodId, pid: Pid)
    requires Agree(w) && id in w.store.pods && id in w.segments && pid !in w.store.pidToPod
    ensures var store := ProcessRegistered(w.store, id, pid).value;
            Agree(World(OpenedShm(store, id), w.segments[id := w.segments[id] + {pid}], w.workers + {pid}))
  {
    var store := ProcessRegistered(w.store, id, pid).value;
    ExactUnlessCrossed(w.store, RegisterProcess(id, pid));
    OpeningKeepsExact(store, id);
    assert store.pidToPod.Keys == w.store.pidToPod.Keys + {pid};
  }

  lemma {:induction false} NewRegistrationAgrees<I>(w: World<I>, id: PodId, pid: Pid, env: Env)
    requires Agree(w) && id in w.store.pods && id in w.segments && env.opens && pid !in w.store.pidToPod
    ensures Agree(Registered(w, id, pid, env).1) <==> !Full(w, id)
  {
    var w' := Registered(w, id, pid, env).1;
    assert !Has(w.store, id, pid);
    if Full(w, id) {
      RegistrationReachesSegment(w, id, pid, env);
      assert pid in w'.store.pods[id].processes && pid !in w'.segments[id];
    } else {
      SuccessKeepsAgreement(w, id, pid);
    }
  }

  lemma {:induction false} RepeatedRegistrationAgrees<I>(w: World<I>, id: PodId, pid: Pid, env: Env)
    requires Agree(w) && id in w.store.pods && env.opens && pid in w.store.pidToPod && w.store.pidToPod[pid] == id
    ensures Agree(Registered(w, id, pid, env).1)
  {
    assert Has(w.store, id, pid);
    var store := ProcessRegistered(w.store, id, pid).value;
    assert w.store.pods[id].processes + {pid} == w.store.pods[id].processes;
    assert w.segments[id] + {pid} == w.segments[id];
    assert store.pidToPod == w.store.pidToPod && w.workers + {pid} == w.workers;
    ExactUnlessCrossed(w.store, RegisterProcess(id, pid));
    OpeningKeepsExact(store, id);
  }

  lemma {:induction false} StolenProcessDisagrees<I>(w: World<I>, id: PodId, pid: Pid, env: Env)
    requires Agree(w) && id in w.store.pods && pid in w.store.pidToPod && w.store.pidToPod[pid] != id
    ensures !Agree(Registered(w, id, pid, env).1)
  {
    var other, w' := w.store.pidToPod[pid], Registered(w, id, pid, env).1;
    assert Has(w.store, other, pid);
    assert Has(w'.store, other, pid);
  }

  /** A failed registration: what it leaves behind is in the segment, or is a worker without an entry. */
  lemma {:induction false} FailedRegistrationAgrees<I>(w: World<I>, id: PodId, pid: Pid, env: Env)
    requires Agree(w) && id in w.store.pods && (id in w.segments ==> !env.opens)
    requires pid in w.store.pidToPod ==> w.store.pidToPod[pid] == id
    ensures Agree(Registered(w, id, pid, env).1) <==>
            pid !in w.store.pidToPod && (id in w.segments ==> Full(w, id) || env.undoes)
  {
    var w' := Registered(w, id, pid, env).1;
    StoreRoundTrip(w.store, id, pid);
    if pid in w.store.pidToPod {
      assert pid in w'.workers && pid !in w'.store.pidToPod;
    } else {
      assert !Has(w.store, id, pid) && w'.store == w.store;
      if id in w.segments {
        assert pid !in w.segments[id];
        if env.undoes {
          SegmentRoundTrip(w.segments, id, pid, env);
        } else {
          assert w'.segments[id] == if Full(w, id) then w.segments[id] else w.segments[id] + {pid};
        }
      }
    }
  }

  lemma {:induction false} RegisteringAgrees<I>(w: World<I>, id: PodId, pid: Pid, env: Env)
    requires Agree(w)
    ensures Agree(Registered(w, id, pid, env).1) <==> Orderly(w, Register(id, pid, env))
  {
    if id in w.store.pods {
      if pid in w.store.pidToPod && w.store.pidToPod[pid] != id {
        StolenProcessDisagrees(w, id, pid, env);
      } else if id !in w.segments || !env.opens {
        assert pid in w.store.pidToPod ==> Has(w.store, id, pid);
        FailedRegistrationAgrees(w, id, pid, env);
      } else if pid in w.store.pidToPod {
        RepeatedRegistrationAgrees(w, id, pid, env);
      } else {
        NewRegistrationAgrees(w, id, pid, env);
      }
    }
  }

  lemma OpeningKeepsExact<I>(s: Store<I>, id: PodId)
    requires id in s.pods
    ensures Exact(OpenedShm(s, id)) <==> Exact(s)
  {
    var s' := OpenedShm(s, id);
    assert forall i, pid :: Has(s', i, pid) <==> Has(s, i, pid);
  }

  // An exit.

  lemma {:induction false} ExitAgrees<I>(w: World<I>, pid: Pid, env: Env)
    requires Agree(w)
    ensures Agree(Exited(w, pid, env)) <==> (pid in w.store.pidToPod ==> env.undoes)
    ensures ExitResult(w, pid) == Ok(())
  {
    if pid in w.store.pidToPod {
      var id, w' := w.store.pidToPod[pid], Exited(w, pid, env);
      assert Has(w.store, id, pid);
      ExactUnlessCrossed(w.store, UnregisterProcess(id, pid));
      assert pid in w.segments[id] && pid !in w'.store.pods[id].processes;
    }
  }

  // A pod.

  /** A pod whose segment could not be removed or created is taken for registered the next time: nothing is tried
      again. */
  lemma FailedPodIsNotRetried<I>(w: World<I>, id: PodId, info: I, env: PodEnv, env': PodEnv)
    requires Ensured(w, id, info, env).0.Err?
    ensures Ensured(Ensured(w, id, info, env).1, id, info, env') == (Ok(()), Ensured(w, id, info, env).1)
  {
  }

  lemma {:induction false} ChangedPodAgrees<I>(w: World<I>, id: PodId, info: I, env: PodEnv)
    requires Agree(w) && id in w.store.pods && w.store.pods[id].info != info
    ensures Agree(Ensured(w, id, info, env).1) <==> (env.removes ==> w.store.pods[id].processes == {})
  {
    var w' := Ensured(w, id, info, env).1;
    ExactUnlessCrossed(w.store, RegisterPod(id, info));
    assert w'.store.pods[id].processes == w.store.pods[id].processes;
  }

  lemma {:induction false} NewPodAgrees<I>(w: World<I>, id: PodId, info: I, env: PodEnv)
    requires Agree(w) && id !in w.store.pods
    ensures Agree(Ensured(w, id, info, env).1) <==> (id in w.segments ==> w.segments[id] == {})
  {
    var w' := Ensured(w, id, info, env).1;
    var store := PodRegistered(w.store, id, info);
    ExactUnlessCrossed(w.store, RegisterPod(id, info));
    if id in w.segments {
      var pids := w.segments[id];
      if pids == {} {
        NothingRestored(store, id);
        assert w' == w.(store := store);
      } else {
        FoundProcessesDisagree(w, id, info, env);
      }
    }
  }

  lemma NothingRestored<I>(s: Store<I>, id: PodId)
    requires id in s.pods
    ensures Restored(s, id, {}) == s
  {
    assert s.pods[id].processes + {} == s.pods[id].processes;
    assert Restored(s, id, {}).pods == s.pods && Restored(s, id, {}).pidToPod == s.pidToPod;
  }

  lemma RestoredStep<I>(s: Store<I>, id: PodId, pids: set<Pid>, pid: Pid)
    requires id in s.pods
    ensures ProcessRegistered(Restored(s, id, pids), id, pid) == Ok(Restored(s, id, pids + {pid}))
  {
    var after, all := ProcessRegistered(Restored(s, id, pids), id, pid).value, Restored(s, id, pids + {pid});
    assert s.pods[id].processes + pids + {pid} == s.pods[id].processes + (pids + {pid});
    assert after.pods == all.pods;
    assert after.pidToPod == all.pidToPod;
  }

  lemma FoundProcessesDisagree<I>(w: World<I>, id: PodId, info: I, env: PodEnv)
    requires Agree(w) && id !in w.store.pods && id in w.segments && w.segments[id] != {}
    ensures !Agree(Ensured(w, id, info, env).1)
  {
    var w' := Ensured(w, id, info, env).1;
    var pid :| pid in w.segments[id];
    assert w'.store.pidToPod[pid] == id;
    if pid in w.store.pidToPod {
      var other := w.store.pidToPod[pid];
      assert Has(w.store, other, pid);
      assert Has(w'.store, other, pid);
    } else {
      assert pid in w'.store.pidToPod && pid !in w'.workers;
    }
  }

  lemma {:induction false} DroppingAgrees<I>(w: World<I>, id: PodId)
    requires Agree(w)
    ensures Agree(WorldStep(w, DropPod(id)))
  {
    ExactUnlessCrossed(w.store, UnregisterPod(id));
  }

  /** From agreement, an event leads to agreement exactly when it is orderly. */
  lemma {:induction false} StepKeepsAgreement<I>(w: World<I>, e: Event<I>)
    requires Agree(w)
    ensures Agree(WorldStep(w, e)) <==> Orderly(w, e)
  {
    match e
    case Register(id, pid, env) => RegisteringAgrees(w, id, pid, env);
    case Exit(pid, env) => ExitAgrees(w, pid, env);
    case EnsurePod(id, info, env) =>
      if id !in w.store.pods {
        NewPodAgrees(w, id, info, env);
      } else if w.store.pods[id].info != info {
        ChangedPodAgrees(w, id, info, env);
      }
    case DropPod(id) => DroppingAgrees(w, id);
  }

  ghost predicate AgreesAlong<I>(w: World<I>, events: seq<Event<I>>) {
    forall k :: 0 <= k <= |events| ==> Agree(WorldRun(w, events[..k]))
  }

  ghost predicate OrderlyAlong<I>(w: World<I>, events: seq<Event<I>>) {
    forall k :: 0 <= k < |events| ==> Orderly(WorldRun(w, events[..k]), events[k])
  }

  lemma NextAgrees<I>(w: World<I>, events: seq<Event<I>>, k: nat)
    requires k < |events| && Agree(WorldRun(w, events[..k]))
    ensures Agree(WorldRun(w, events[..k + 1])) <==> Orderly(WorldRun(w, events[..k]), events[k])
  {
    assert events[..k + 1][..k] == events[..k];
    StepKeepsAgreement(WorldRun(w, events[..k]), events[k]);
  }

  lemma {:induction false} OrderlyAgrees<I>(w: World<I>, events: seq<Event<I>>, n: nat)
    requires Agree(w) && n <= |events| && OrderlyAlong(w, events)
    ensures Agree(WorldRun(w, events[..n]))
  {
    if n > 0 {
      OrderlyAgrees(w, events, n - 1);
      NextAgrees(w, events, n - 1);
    }
  }

  /** Store, segments and hypervisor agree all along a run of registrations, exits and pods that come, change and go
      exactly when every event is orderly. */
  lemma {:induction false} RunKeepsAgreement<I>(w: World<I>, events: seq<Event<I>>)
    requires Agree(w)
    ensures AgreesAlong(w, events) <==> OrderlyAlong(w, events)
  {
    if OrderlyAlong(w, events) {
      forall k | 0 <= k <= |events|
        ensures Agree(WorldRun(w, events[..k]))
      {
        OrderlyAgrees(w, events, k);
      }
    }
    if AgreesAlong(w, events) {
      forall k | 0 <= k < |events|
        ensures Orderly(WorldRun(w, events[..k]), events[k])
      {
        NextAgrees(w, events, k);
      }
    }
  }
}
