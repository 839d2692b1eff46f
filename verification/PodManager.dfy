/** crates/hypervisor/src/core/pod: the state store in place, and the manager that keeps three components in step. */
module PodManagers {
  import opened Wrappers
  import opened PodStoreSpec
  import opened PodManagerSpec
  import PodLifecycles

  class PodStateStore<I> {
    var pods: map<PodId, PodState<I>>
    var pidToPod: map<Pid, PodId>

    constructor ()
      ensures Value() == Store(map[], map[])
    {
      pods, pidToPod := map[], map[];
    }

    function Value(): Store<I>
      reads this
    {
      Store(pods, pidToPod)
    }

    method RegisterPod(id: PodId, info: I) returns (overwritten: bool)
      modifies this
      ensures Value() == Apply(old(Value()), PodStoreSpec.RegisterPod(id, info))
      ensures overwritten <==> id in old(pods)
    {
      overwritten := id in pods;
      var podState := PodState(info, {}, false, Running);
      if overwritten {
        podState := podState.(processes := pods[id].processes, shmOpen := pods[id].shmOpen);
      }
      pods := pods[id := podState];
    }

    method UnregisterPod(id: PodId) returns (r: Result<(), PodError>)
      modifies this
      ensures Value() == Apply(old(Value()), PodStoreSpec.UnregisterPod(id))
      ensures r == if id !in old(pods) then Err(PodIdentifierNotFound)
                   else if old(pods)[id].processes != {} then Err(PodNotEmpty) else Ok(())
    {
      if id !in pods {
        return Err(PodIdentifierNotFound);
      }
      if pods[id].processes != {} {
        return Err(PodNotEmpty);
      }
      pods := pods - {id};
      return Ok(());
    }

    method RegisterProcess(id: PodId, pid: Pid) returns (r: Result<(), PodError>)
      modifies this
      ensures Value() == Apply(old(Value()), PodStoreSpec.RegisterProcess(id, pid))
      ensures r == if id !in old(pods) then Err(PodIdentifierNotFound) else Ok(())
    {
      if id !in pods {
        return Err(PodIdentifierNotFound);
      }
      pods := pods[id := pods[id].(processes := pods[id].processes + {pid})];
      pidToPod := pidToPod[pid := id];
      return Ok(());
    }

    method UnregisterProcess(id: PodId, pid: Pid) returns (r: Result<(), PodError>)
      modifies this
      ensures Value() == Apply(old(Value()), PodStoreSpec.UnregisterProcess(id, pid))
      ensures r == if id !in old(pods) then Err(PodIdentifierNotFound) else Ok(())
    {
      if id !in pods {
        return Err(PodIdentifierNotFound);
      }
      pods := pods[id := pods[id].(processes := pods[id].processes - {pid})];
      pidToPod := pidToPod - {pid};
      return Ok(());
    }

    /** With inverse maps, a process is looked up to the pod that lists it. */
    method GetPodByPid(pid: Pid) returns (id: Option<PodId>)
      ensures id == if pid in pidToPod then Some(pidToPod[pid]) else None
      ensures Exact(Value()) ==> forall p :: id == Some(p) <==> Has(Value(), p, pid)
    {
      if pid !in pidToPod {
        return None;
      }
      return Some(pidToPod[pid]);
    }

    method OpenSharedMemory(id: PodId, env: Env) returns (r: Result<(), PodError>)
      modifies this
      ensures r == if !env.opens then Err(SharedMemoryError)
                   else if id !in old(pods) then Err(PodIdentifierNotFound) else Ok(())
      ensures Value() == if r.Ok? then OpenedShm(old(Value()), id) else old(Value())
    {
      if !env.opens {
        return Err(SharedMemoryError);
      }
      if id !in pods {
        return Err(PodIdentifierNotFound);
      }
      pods := pods[id := pods[id].(shmOpen := true)];
      return Ok(());
    }
  }

  class LimiterCoordinator {
    var segments: map<PodId, set<Pid>>

    method RegisterProcess(id: PodId, pid: Pid) returns (r: Result<(), PodError>)
      modifies this
      ensures AddedTo(old(segments), id, pid) == if r.Ok? then Ok(segments) else Err(r.error)
      ensures r.Err? ==> segments == old(segments)
    {
      if id !in segments {
        return Err(RegistrationFailed);
      }
      segments := segments[id := PidRegistries.Added(segments[id], MAX_PROCESSES, pid)];
      return Ok(());
    }

    method UnregisterProcess(id: PodId, pid: Pid, env: Env) returns (r: Result<(), PodError>)
      modifies this
      ensures r == if id in old(segments) && env.undoes then Ok(()) else Err(RegistrationFailed)
      ensures segments == RemovedFrom(old(segments), id, pid, env)
    {
      if id !in segments || !env.undoes {
        return Err(RegistrationFailed);
      }
      segments := segments[id := segments[id] - {pid}];
      return Ok(());
    }

    /** Removes the pod's segment. */
    method UnregisterPod(id: PodId, env: PodEnv) returns (r: Result<(), PodError>)
      modifies this
      ensures r == if env.removes then Ok(()) else Err(RegistrationFailed)
      ensures segments == if env.removes then old(segments) - {id} else old(segments)
    {
      if !env.removes {
        return Err(RegistrationFailed);
      }
      segments := segments - {id};
      return Ok(());
    }

    /** Takes the pids from an existing segment, or creates an empty one. */
    method EnsurePodRegistered(id: PodId, env: PodEnv) returns (r: Result<set<Pid>, PodError>)
      modifies this
      ensures r == if id in old(segments) then Ok(old(segments)[id])
                   else if env.creates then Ok({}) else Err(RegistrationFailed)
      ensures segments == if id !in old(segments) && env.creates then old(segments)[id := {}] else old(segments)
    {
      if id in segments {
        return Ok(segments[id]);
      }
      if !env.creates {
        return Err(RegistrationFailed);
      }
      segments := segments[id := {}];
      return Ok({});
    }
  }

  class Hypervisor {
    var workers: set<Pid>
  }

  class PodManager<I(==)> {
    const store: PodStateStore<I>
    const coordinator: LimiterCoordinator
    const hypervisor: Hypervisor

    constructor (store: PodStateStore<I>, coordinator: LimiterCoordinator, hypervisor: Hypervisor)
      ensures this.store == store && this.coordinator == coordinator && this.hypervisor == hypervisor
    {
      this.store, this.coordinator, this.hypervisor := store, coordinator, hypervisor;
    }

    function Value(): World<I>
      reads store, coordinator, hypervisor
    {
      World(store.Value(), coordinator.segments, hypervisor.workers)
    }

    /** Three registrations in a row, each failure undoing the ones before it. */
    method RegisterProcessToAllComponents(id: PodId, pid: Pid, env: Env) returns (r: Result<(), PodError>)
      modifies store, coordinator, hypervisor
      ensures (r, Value()) == Registered(old(Value()), id, pid, env)
    {
      r := store.RegisterProcess(id, pid);
      if r.Err? {
        return;
      }
      r := coordinator.RegisterProcess(id, pid);
      if r.Err? {
        var rollback := store.UnregisterProcess(id, pid);
        return;
      }
      r := store.OpenSharedMemory(id, env);
      if r.Err? {
        var cleanup := coordinator.UnregisterProcess(id, pid, env);
        var rollback := store.UnregisterProcess(id, pid);
        return;
      }
      if pid !in hypervisor.workers {
        hypervisor.workers := hypervisor.workers + {pid};
      }
      assert hypervisor.workers == old(hypervisor.workers) + {pid};
    }

    method HandleProcessExited(pid: Pid, env: Env) returns (r: Result<(), PodError>)
      modifies store, coordinator, hypervisor
      ensures r == ExitResult(old(Value()), pid)
      ensures Value() == Exited(old(Value()), pid, env)
    {
      var found := store.GetPodByPid(pid);
      if found.None? {
        return Ok(());
      }
      if pid in hypervisor.workers {
        hypervisor.workers := hypervisor.workers - {pid};
      }
      assert hypervisor.workers == old(hypervisor.workers) - {pid};
      var cleanup := coordinator.UnregisterProcess(found.value, pid, env);
      r := store.UnregisterProcess(found.value, pid);
    }

    /** Registers a new or changed pod, and the processes its segment already lists. */
    method EnsurePodRegistered(id: PodId, info: I, env: PodEnv) returns (r: Result<(), PodError>)
      modifies store, coordinator
      ensures (r, Value()) == Ensured(old(Value()), id, info, env)
      ensures r.Ok? && id !in old(store.pods) ==>
                && id in store.pods && id in coordinator.segments
                && store.pods[id].processes == coordinator.segments[id]
                && forall pid :: pid in coordinator.segments[id] ==>
                     pid in store.pidToPod && store.pidToPod[pid] == id
    {
      ghost var was := Value();
      if id in store.pods && store.pods[id].info == info {
        return Ok(());
      }
      var overwritten := store.RegisterPod(id, info);
      if overwritten {
        var _ :- coordinator.UnregisterPod(id, env);
      }
      var restored :- coordinator.EnsurePodRegistered(id, env);
      ghost var before := store.Value();
      RestoreProcesses(id, restored);
      if restored == {} {
        NothingRestored(before, id);
      }
      r := Ok(());
      if id !in was.store.pods {
        PodLifecycles.NewPodIsListed(was, id, info, env);
      }
    }

    /** The loop over the restored pids. */
    method RestoreProcesses(id: PodId, pids: set<Pid>)
      requires id in store.pods
      modifies store
      ensures store.Value() == Restored(old(store.Value()), id, pids)
    {
      var left := pids;
      ghost var before, now, done := store.Value(), store.Value(), {};
      NothingRestored(before, id);
      assert pids - left == {};
      while left != {}
        invariant left <= pids && done == pids - left
        invariant store.Value() == now && id in now.pods && id in before.pods && now == Restored(before, id, done)
        decreases left
      {
        var pid :| pid in left;
        RestoredStep(before, id, done, pid);
        var _ := store.RegisterProcess(id, pid);
        now := ProcessRegistered(now, id, pid).value;
        left := left - {pid};
        assert done + {pid} == pids - left;
        done := pids - left;
      }
      assert done == pids;
    }
  }
}
