/** How the processes of a pod come and go: from a segment found into the store, and out of both again. */
module PodLifecycles {
  import opened Wrappers
  import opened PodStoreSpec
  import opened PodManagerSpec

  /** The pod's segment and the store list the same processes, and each is looked up to this pod. */
  predicate Listed<I>(w: World<I>, id: PodId) {
    && id in w.store.pods && id in w.segments
    && w.store.pods[id].processes == w.segments[id]
    && forall pid :: pid in w.segments[id] ==> pid in w.store.pidToPod && w.store.pidToPod[pid] == id
  }

  /** Nothing but the pod, the entries of these processes and the pod's segment differs. */
  ghost predicate OnlyPodChanged<I>(w: World<I>, w': World<I>, id: PodId, pids: set<Pid>) {
    && w'.store.pods - {id} == w.store.pods - {id}
    && w'.store.pidToPod.Keys == w.store.pidToPod.Keys + pids
    && (forall pid :: pid in w.store.pidToPod && pid !in pids ==> w'.store.pidToPod[pid] == w.store.pidToPod[pid])
    && w'.segments - {id} == w.segments - {id}
    && w'.workers == w.workers
  }

  /** A new pod whose segment is there gets the processes listed in it, and can be looked up from each of them; one
      whose segment is made has none. Nothing else changes. */
  lemma {:induction false} NewPodIsListed<I>(w: World<I>, id: PodId, info: I, env: PodEnv)
    requires id !in w.store.pods && Ensured(w, id, info, env).0.Ok?
    ensures var w' := Ensured(w, id, info, env).1;
            && Listed(w', id)
            && w'.segments[id] == (if id in w.segments then w.segments[id] else {})
            && w'.store.pods[id] == PodState(info, w'.segments[id], false, Running)
            && OnlyPodChanged(w, w', id, w'.segments[id])
  {
    var w' := Ensured(w, id, info, env).1;
    if id in w.segments {
      assert {} + w.segments[id] == w.segments[id];
    } else {
      assert w'.store.pidToPod.Keys == w.store.pidToPod.Keys + {};
    }
  }

  predicate Exits<I>(events: seq<Event<I>>) {
    forall k :: 0 <= k < |events| ==> events[k].Exit? && events[k].env.undoes
  }

  predicate HasExit<I>(events: seq<Event<I>>, pid: Pid) {
    exists k :: 0 <= k < |events| && events[k].Exit? && events[k].pid == pid
  }

  lemma ExitKeepsListed<I>(w: World<I>, id: PodId, pid: Pid, env: Env)
    requires Listed(w, id) && env.undoes
    ensures Listed(Exited(w, pid, env), id)
    ensures Exited(w, pid, env).segments[id] == w.segments[id] - {pid}
    ensures Exited(w, pid, env).store.pods[id] == w.store.pods[id].(processes := w.segments[id] - {pid})
  {
    if pid !in w.store.pidToPod || w.store.pidToPod[pid] != id {
      assert pid !in w.segments[id];
      assert w.segments[id] - {pid} == w.segments[id];
    }
  }

  /** Any exits whose segments give the pids back, of this pod's processes or others: those that have not exited are
      left. */
  lemma {:induction false} ExitsLeave<I>(w: World<I>, id: PodId, events: seq<Event<I>>)
    requires Listed(w, id) && Exits(events)
    ensures var w' := WorldRun(w, events);
            && Listed(w', id)
            && w'.segments[id] == (set pid | pid in w.segments[id] && !HasExit(events, pid))
            && w'.store.pods[id] == w.store.pods[id].(processes := w'.segments[id])
  {
    if events == [] {
      assert w.segments[id] == set pid | pid in w.segments[id] && !HasExit(events, pid);
    } else {
      var n, init := |events| - 1, events[..|events| - 1];
      ExitsLeave(w, id, init);
      ExitKeepsListed(WorldRun(w, init), id, events[n].pid, events[n].env);
      forall pid: Pid
        ensures HasExit(events, pid) <==> HasExit(init, pid) || pid == events[n].pid
      {
        ExitAtEnd(events, pid);
      }
    }
  }

  lemma ExitAtEnd<I>(events: seq<Event<I>>, pid: Pid)
    requires Exits(events) && events != []
    ensures HasExit(events, pid) <==> HasExit(events[..|events| - 1], pid) || pid == events[|events| - 1].pid
  {
    var init := events[..|events| - 1];
    if HasExit(events, pid) && pid != events[|events| - 1].pid {
      var k :| 0 <= k < |events| && events[k].Exit? && events[k].pid == pid;
      assert init[k] == events[k];
    }
    if HasExit(init, pid) {
      var k :| 0 <= k < |init| && init[k].Exit? && init[k].pid == pid;
      assert events[k] == init[k];
    }
  }

  /** So the processes found in the segment of a new pod can be cleaned up like any others: when all of them have
      exited, neither the segment nor the pod has any left, and the pod can be removed. */
  lemma {:induction false} RestoredProcessesExit<I>(w: World<I>, id: PodId, info: I, env: PodEnv, events: seq<Event<I>>)
    requires id !in w.store.pods && id in w.segments && Exits(events)
    requires forall pid :: pid in w.segments[id] ==> HasExit(events, pid)
    ensures var w' := WorldRun(Ensured(w, id, info, env).1, events);
            && id in w'.store.pods && w'.store.pods[id] == PodState(info, {}, false, Running)
            && id in w'.segments && w'.segments[id] == {}
            && PodUnregistered(w'.store, id) == Ok(w'.store.(pods := w'.store.pods - {id}))
  {
    NewPodIsListed(w, id, info, env);
    ExitsLeave(Ensured(w, id, info, env).1, id, events);
  }

  /** Registering a new pod and removing it gives the store back. */
  lemma PodRoundTrip<I>(s: Store<I>, id: PodId, info: I)
    requires id !in s.pods
    ensures PodUnregistered(PodRegistered(s, id, info), id) == Ok(s)
  {
    assert s.pods[id := PodState(info, {}, false, Running)] - {id} == s.pods;
  }

  predicate ShmOpen<I>(w: World<I>, id: PodId) {
    id in w.store.pods && w.store.pods[id].shmOpen
  }

  /** The handle of a pod is opened by a registration of one of its processes that succeeds, and by nothing else; it
      stays open for as long as the pod is there. */
  lemma HandleOpens<I>(w: World<I>, e: Event<I>, id: PodId)
    ensures ShmOpen(WorldStep(w, e), id) <==>
            id in WorldStep(w, e).store.pods &&
            (ShmOpen(w, id) || (e.Register? && e.id == id && Registered(w, id, e.pid, e.env).0.Ok?))
  {
    match e
    case Register(other, pid, env) =>
    case Exit(pid, env) =>
    case EnsurePod(other, info, env) =>
    case DropPod(other) =>
  }
}
