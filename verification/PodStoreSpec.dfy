/** The pod state store as a value: pods by identifier, and pods by process id. */
module PodStoreSpec {
  import opened Wrappers

  type Pid = nat

  datatype PodId = PodId(namespace: string, name: string)

  datatype PodStatus = Running | Terminating | Terminated

  /** `I` stands for the pod information and device configurations, which the store only keeps. */
  datatype PodState<I> = PodState(info: I, processes: set<Pid>, shmOpen: bool, status: PodStatus)

  datatype Store<I> = Store(pods: map<PodId, PodState<I>>, pidToPod: map<Pid, PodId>)

  datatype PodError = PodIdentifierNotFound | PodNotEmpty | RegistrationFailed | SharedMemoryError

  /** Registering again keeps the processes and the handle of the pod. */
  function PodRegistered<I>(s: Store<I>, id: PodId, info: I): Store<I> {
    if id in s.pods then
      s.(pods := s.pods[id := PodState(info, s.pods[id].processes, s.pods[id].shmOpen, Running)])
    else
      s.(pods := s.pods[id := PodState(info, {}, false, Running)])
  }

  function PodUnregistered<I>(s: Store<I>, id: PodId): Result<Store<I>, PodError> {
    if id !in s.pods then Err(PodIdentifierNotFound)
    else if s.pods[id].processes != {} then Err(PodNotEmpty)
    else Ok(s.(pods := s.pods - {id}))
  }

  function WithProcesses<I>(s: Store<I>, id: PodId, processes: set<Pid>): map<PodId, PodState<I>>
    requires id in s.pods
  {
    s.pods[id := s.pods[id].(processes := processes)]
  }

  function ProcessRegistered<I>(s: Store<I>, id: PodId, pid: Pid): Result<Store<I>, PodError> {
    if id !in s.pods then Err(PodIdentifierNotFound)
    else Ok(Store(WithProcesses(s, id, s.pods[id].processes + {pid}), s.pidToPod[pid := id]))
  }

  function ProcessUnregistered<I>(s: Store<I>, id: PodId, pid: Pid): Result<Store<I>, PodError> {
    if id !in s.pods then Err(PodIdentifierNotFound)
    else Ok(Store(WithProcesses(s, id, s.pods[id].processes - {pid}), s.pidToPod - {pid}))
  }

  datatype StoreOp<I> =
    | RegisterPod(id: PodId, info: I)
    | UnregisterPod(id: PodId)
    | RegisterProcess(id: PodId, pid: Pid)
    | UnregisterProcess(id: PodId, pid: Pid)

  /** A refused operation leaves the store alone. */
  function Apply<I>(s: Store<I>, op: StoreOp<I>): Store<I> {
    match op
    case RegisterPod(id, info) => PodRegistered(s, id, info)
    case UnregisterPod(id) => OrUnchanged(s, PodUnregistered(s, id))
    case RegisterProcess(id, pid) => OrUnchanged(s, ProcessRegistered(s, id, pid))
    case UnregisterProcess(id, pid) => OrUnchanged(s, ProcessUnregistered(s, id, pid))
  }

  function OrUnchanged<I>(s: Store<I>, r: Result<Store<I>, PodError>): Store<I> {
    if r.Ok? then r.value else s
  }

  function Run<I>(ops: seq<StoreOp<I>>): Store<I> {
    if ops == [] then Store(map[], map[]) else Apply(Run(ops[..|ops| - 1]), ops[|ops| - 1])
  }

  predicate Has<I>(s: Store<I>, id: PodId, pid: Pid) {
    id in s.pods && pid in s.pods[id].processes
  }

  /** No reverse entry dangles: it names a pod that exists and lists the process. */
  ghost predicate Sound<I>(s: Store<I>) {
    forall pid :: pid in s.pidToPod ==> Has(s, s.pidToPod[pid], pid)
  }

  /** The two maps are inverse to each other. */
  ghost predicate Exact<I>(s: Store<I>) {
    Sound(s) && forall id, pid :: Has(s, id, pid) ==> pid in s.pidToPod && s.pidToPod[pid] == id
  }

  lemma {:induction false} RunIsSound<I>(ops: seq<StoreOp<I>>)
    ensures Sound(Run(ops))
  {
    if ops != [] {
      RunIsSound(ops[..|ops| - 1]);
    }
  }

  /** The operation registers or unregisters, on an existing pod, a process that some other pod has. */
  ghost predicate Crosses<I>(s: Store<I>, op: StoreOp<I>) {
    && (op.RegisterProcess? || op.UnregisterProcess?)
    && op.id in s.pods
    && exists other :: other != op.id && Has(s, other, op.pid)
  }

  /** The maps stay inverse to each other exactly when the process is no other pod's. */
  lemma {:induction false} ExactUnlessCrossed<I>(s: Store<I>, op: StoreOp<I>)
    requires Exact(s)
    ensures Exact(Apply(s, op)) <==> !Crosses(s, op)
  {
    var s' := Apply(s, op);
    if Crosses(s, op) {
      var other :| other != op.id && Has(s, other, op.pid);
      assert Has(s', other, op.pid);
    } else {
      forall id, pid | Has(s', id, pid)
        ensures pid in s'.pidToPod && s'.pidToPod[pid] == id
      {
        assert Has(s, id, pid) || (op.RegisterProcess? && id == op.id && pid == op.pid);
      }
    }
  }

  ghost predicate NeverCrosses<I>(ops: seq<StoreOp<I>>) {
    forall k :: 0 <= k < |ops| ==> !Crosses(Run(ops[..k]), ops[k])
  }

  ghost predicate ExactAlong<I>(ops: seq<StoreOp<I>>) {
    forall k :: 0 <= k <= |ops| ==> Exact(Run(ops[..k]))
  }

  lemma NextIsExact<I>(ops: seq<StoreOp<I>>, k: nat)
    requires k < |ops| && Exact(Run(ops[..k]))
    ensures Exact(Run(ops[..k + 1])) <==> !Crosses(Run(ops[..k]), ops[k])
  {
    assert ops[..k + 1][..k] == ops[..k];
    ExactUnlessCrossed(Run(ops[..k]), ops[k]);
  }

  lemma {:induction false} UncrossedIsExact<I>(ops: seq<StoreOp<I>>, n: nat)
    requires n <= |ops| && NeverCrosses(ops)
    ensures Exact(Run(ops[..n]))
  {
    if n > 0 {
      UncrossedIsExact(ops, n - 1);
      NextIsExact(ops, n - 1);
    }
  }

  /** All along a run looking a process up finds the pod that lists it, and nothing else, exactly when every process
      is one pod's at a time and leaves the pod that has it. */
  lemma {:induction false} RunIsExact<I>(ops: seq<StoreOp<I>>)
    ensures ExactAlong(ops) <==> NeverCrosses(ops)
    ensures NeverCrosses(ops) ==> Exact(Run(ops))
  {
    if NeverCrosses(ops) {
      forall k | 0 <= k <= |ops|
        ensures Exact(Run(ops[..k]))
      {
        UncrossedIsExact(ops, k);
      }
      assert ops[..|ops|] == ops;
    }
    if ExactAlong(ops) {
      forall k | 0 <= k < |ops|
        ensures !Crosses(Run(ops[..k]), ops[k])
      {
        NextIsExact(ops, k);
      }
    }
  }
}
