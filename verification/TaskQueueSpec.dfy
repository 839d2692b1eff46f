/** The task queue of one client of the HTTP server, as a value, and what every run of it keeps. */
module TaskQueueSpec {
  import opened Wrappers

  type TaskId = nat
  type ClientId = string

  datatype TaskState = Queued | Processing | Completed | Failed

  datatype Task<T> = Task(id: TaskId, data: T, state: TaskState, clientId: Option<ClientId>)

  datatype TaskResult<R> = TaskResult(taskId: TaskId, clientId: ClientId, success: bool, result: Option<R>)

  datatype Config = Config(maxQueueSize: nat, maxHistorySize: nat)

  datatype Queue<T, R> = Queue(
    pending: seq<Task<T>>,
    processing: map<TaskId, Task<T>>,
    completed: seq<TaskResult<R>>)

  function NewTask<T>(id: TaskId, data: T): Task<T> {
    Task(id, data, Queued, None)
  }

  function Handed<T>(task: Task<T>, client: ClientId): Task<T> {
    task.(state := Processing, clientId := Some(client))
  }

  /** The last `n` items of a sequence, or all of them. */
  function Last<A>(items: seq<A>, n: nat): (r: seq<A>)
    ensures |r| == if n < |items| then n else |items|
    ensures r == items[|items| - |r|..]
  {
    if n < |items| then items[|items| - n..] else items
  }

  function Ids<T>(tasks: seq<Task<T>>): (ids: seq<TaskId>)
    ensures |ids| == |tasks|
    ensures forall i :: 0 <= i < |ids| ==> ids[i] == tasks[i].id
  {
    seq(|tasks|, i requires 0 <= i < |tasks| => tasks[i].id)
  }

  function ResultIds<R>(results: seq<TaskResult<R>>): (ids: seq<TaskId>)
    ensures |ids| == |results|
    ensures forall i :: 0 <= i < |ids| ==> ids[i] == results[i].taskId
  {
    seq(|results|, i requires 0 <= i < |results| => results[i].taskId)
  }

  function Enqueued<T, R>(q: Queue<T, R>, task: Task<T>, cfg: Config): Option<Queue<T, R>> {
    if |q.pending| >= cfg.maxQueueSize then None else Some(q.(pending := q.pending + [task]))
  }

  function Dequeued<T, R>(q: Queue<T, R>, client: ClientId): (r: (Option<Task<T>>, Queue<T, R>)) {
    if q.pending == [] then (None, q)
    else
      var task := Handed(q.pending[0], client);
      (Some(task), q.(pending := q.pending[1..], processing := q.processing[task.id := task]))
  }

  function Finished<T, R>(q: Queue<T, R>, result: TaskResult<R>, cfg: Config): Option<Queue<T, R>> {
    if result.taskId !in q.processing then None
    else
      var kept := if |q.completed| >= cfg.maxHistorySize && q.completed != [] then q.completed[1..] else q.completed;
      Some(q.(processing := q.processing - {result.taskId}, completed := kept + [result]))
  }

  // One queue over a whole run, with the history of what it accepted, handed out and took back.

  datatype Op<T, R> = Put(task: Task<T>) | Take | Finish(result: TaskResult<R>)

  datatype Trace<T, R> = Trace(accepted: seq<Task<T>>, delivered: seq<Task<T>>, results: seq<TaskResult<R>>)

  datatype Run<T, R> = Run(queue: Queue<T, R>, trace: Trace<T, R>)

  function EmptyQueue<T, R>(): Queue<T, R> {
    Queue([], map[], [])
  }

  function QueueStep<T, R>(cfg: Config, client: ClientId, r: Run<T, R>, op: Op<T, R>): Run<T, R> {
    match op
    case Put(task) =>
      (match Enqueued(r.queue, task, cfg)
       case None => r
       case Some(q) => Run(q, r.trace.(accepted := r.trace.accepted + [task])))
    case Take =>
      var (handed, q) := Dequeued(r.queue, client);
      if handed.None? then r else Run(q, r.trace.(delivered := r.trace.delivered + [handed.value]))
    case Finish(result) =>
      (match Finished(r.queue, result, cfg)
       case None => r
       case Some(q) => Run(q, r.trace.(results := r.trace.results + [result])))
  }

  function QueueRun<T, R>(cfg: Config, client: ClientId, ops: seq<Op<T, R>>): Run<T, R> {
    if ops == [] then Run(EmptyQueue(), Trace([], [], []))
    else QueueStep(cfg, client, QueueRun(cfg, client, ops[..|ops| - 1]), ops[|ops| - 1])
  }

  predicate Distinct(ids: seq<TaskId>) {
    forall i, j :: 0 <= i < j < |ids| ==> ids[i] != ids[j]
  }

  function HistoryLimit(cfg: Config): nat {
    if cfg.maxHistorySize == 0 then 1 else cfg.maxHistorySize
  }

  /** The accepted tasks, in order, are those handed out followed by those pending; each is handed out once, to this
      client, in order; of those handed out, exactly the unfinished ones are being processed; every accepted result
      is for a task that was handed out, and no two are for the same task. */
  ghost predicate Conserved<T, R>(cfg: Config, client: ClientId, r: Run<T, R>) {
    var Run(q, tr) := r;
    && |tr.delivered| <= |tr.accepted|
    && q.pending == tr.accepted[|tr.delivered|..]
    && (forall i :: 0 <= i < |tr.delivered| ==> tr.delivered[i] == Handed(tr.accepted[i], client))
    && (forall i :: 0 <= i < |tr.delivered| ==>
          (tr.delivered[i].id in q.processing <==> tr.delivered[i].id !in ResultIds(tr.results)))
    && (forall id :: id in q.processing ==>
          id in Ids(tr.delivered) && q.processing[id] in tr.delivered && q.processing[id].id == id)
    && (forall id :: id in ResultIds(tr.results) ==> id in Ids(tr.delivered))
    && Distinct(ResultIds(tr.results))
    && |q.processing| + |tr.results| == |tr.delivered|
  }

  /** The pending list keeps to its bound, and the history is the latest accepted results, in order. */
  ghost predicate Bounded<T, R>(cfg: Config, r: Run<T, R>) {
    && |r.queue.pending| <= cfg.maxQueueSize
    && r.queue.completed == Last(r.trace.results, HistoryLimit(cfg))
  }

  lemma LastGrows<A>(items: seq<A>, item: A, n: nat)
    requires n > 0
    ensures var kept := Last(items, n);
            Last(items + [item], n) == (if |kept| >= n then kept[1..] else kept) + [item]
  {
  }

  lemma {:induction false} FinishIsBounded<T, R>(cfg: Config, q: Queue<T, R>,
                                                 results: seq<TaskResult<R>>, result: TaskResult<R>)
    requires q.completed == Last(results, HistoryLimit(cfg)) && Finished(q, result, cfg).Some?
    ensures Finished(q, result, cfg).value.completed == Last(results + [result], HistoryLimit(cfg))
    ensures Finished(q, result, cfg).value.pending == q.pending
  {
    LastGrows(results, result, HistoryLimit(cfg));
  }

  lemma {:induction false} StepIsBounded<T, R>(cfg: Config, client: ClientId, r: Run<T, R>, op: Op<T, R>)
    requires Bounded(cfg, r)
    ensures Bounded(cfg, QueueStep(cfg, client, r, op))
  {
    match op
    case Put(task) =>
    case Take =>
    case Finish(result) =>
      if Finished(r.queue, result, cfg).Some? {
        FinishIsBounded(cfg, r.queue, r.trace.results, result);
      }
  }

  lemma {:induction false} RunIsBounded<T, R>(cfg: Config, client: ClientId, ops: seq<Op<T, R>>)
    ensures Bounded(cfg, QueueRun(cfg, client, ops))
  {
    if ops != [] {
      RunIsBounded(cfg, client, ops[..|ops| - 1]);
      StepIsBounded(cfg, client, QueueRun(cfg, client, ops[..|ops| - 1]), ops[|ops| - 1]);
    }
  }

  /** Conservation over every run whose accepted tasks have distinct ids. */
  lemma {:induction false} RunConserves<T, R>(cfg: Config, client: ClientId, ops: seq<Op<T, R>>)
    requires Distinct(Ids(QueueRun(cfg, client, ops).trace.accepted))
    ensures Conserved(cfg, client, QueueRun(cfg, client, ops))
  {
    if ops != [] {
      var before := QueueRun(cfg, client, ops[..|ops| - 1]);
      AcceptedGrows(cfg, client, before, ops[|ops| - 1]);
      RunConserves(cfg, client, ops[..|ops| - 1]);
      match ops[|ops| - 1] {
        case Put(task) => PutConserves(cfg, client, before, task);
        case Take => TakeConserves(cfg, client, before);
        case Finish(result) => FinishConserves(cfg, client, before, result);
      }
    }
  }

  lemma AcceptedGrows<T, R>(cfg: Config, client: ClientId, r: Run<T, R>, op: Op<T, R>)
    requires Distinct(Ids(QueueStep(cfg, client, r, op).trace.accepted))
    ensures Distinct(Ids(r.trace.accepted))
  {
    var after := QueueStep(cfg, client, r, op).trace.accepted;
    assert after[..|r.trace.accepted|] == r.trace.accepted;
    assert forall i :: 0 <= i < |r.trace.accepted| ==> Ids(after)[i] == Ids(r.trace.accepted)[i];
  }

  lemma {:induction false} PutConserves<T, R>(cfg: Config, client: ClientId, r: Run<T, R>, task: Task<T>)
    requires Conserved(cfg, client, r)
    ensures Conserved(cfg, client, QueueStep(cfg, client, r, Put(task)))
  {
  }

  lemma {:induction false} TakeConserves<T, R>(cfg: Config, client: ClientId, r: Run<T, R>)
    requires Conserved(cfg, client, r) && Distinct(Ids(r.trace.accepted))
    ensures Conserved(cfg, client, QueueStep(cfg, client, r, Take))
  {
    var tr := r.trace;
    if r.queue.pending != [] {
      var n := |tr.delivered|;
      var id := tr.accepted[n].id;
      assert Ids(tr.accepted)[n] == id;
      forall i | 0 <= i < n
        ensures tr.delivered[i].id != id
      {
        assert Ids(tr.accepted)[i] == tr.delivered[i].id;
      }
      assert id !in Ids(tr.delivered);
      var r' := QueueStep(cfg, client, r, Take);
      assert Ids(r'.trace.delivered) == Ids(tr.delivered) + [id];
    }
  }

  lemma {:induction false} FinishConserves<T, R>(cfg: Config, client: ClientId, r: Run<T, R>, result: TaskResult<R>)
    requires Conserved(cfg, client, r)
    ensures Conserved(cfg, client, QueueStep(cfg, client, r, Finish(result)))
  {
    var id := result.taskId;
    if id in r.queue.processing {
      var r' := QueueStep(cfg, client, r, Finish(result));
      assert ResultIds(r'.trace.results) == ResultIds(r.trace.results) + [id];
      assert r.queue.processing.Keys == r'.queue.processing.Keys + {id};
      var k :| 0 <= k < |r.trace.delivered| && Ids(r.trace.delivered)[k] == id;
      assert id !in ResultIds(r.trace.results);
    }
  }

  /** A task that is handed out is marked as being processed by this client, and keeps its id and data. */
  ghost predicate MarkedFor<T>(task: Task<T>, handed: Task<T>, client: ClientId) {
    handed == Task(task.id, task.data, Processing, Some(client))
  }

  /** Over every run: a task being processed carries its id and this client's mark; a task handed out is the accepted
      one of its turn with that mark, and the others wait as they were accepted. */
  lemma {:induction false} RunMarks<T, R>(cfg: Config, client: ClientId, ops: seq<Op<T, R>>)
    ensures var Run(q, tr) := QueueRun(cfg, client, ops);
            && (forall id :: id in q.processing ==>
                  q.processing[id].id == id && q.processing[id].state == Processing &&
                  q.processing[id].clientId == Some(client))
            && |tr.delivered| <= |tr.accepted| && q.pending == tr.accepted[|tr.delivered|..]
            && forall i :: 0 <= i < |tr.delivered| ==> MarkedFor(tr.accepted[i], tr.delivered[i], client)
  {
    if ops != [] {
      RunMarks(cfg, client, ops[..|ops| - 1]);
    }
  }

  /** `n` polls in a row. */
  function Polled<T, R>(cfg: Config, client: ClientId, r: Run<T, R>, n: nat): Run<T, R> {
    if n == 0 then r else QueueStep(cfg, client, Polled(cfg, client, r, n - 1), Take)
  }

  /** As many polls as tasks are pending hand out all of them, oldest first, and nothing else happens. */
  lemma {:induction false} PollsDeliver<T, R>(cfg: Config, client: ClientId, r: Run<T, R>, n: nat)
    requires n <= |r.queue.pending|
    ensures var r' := Polled(cfg, client, r, n);
            && r'.queue.pending == r.queue.pending[n..] && r'.queue.completed == r.queue.completed
            && r'.trace.accepted == r.trace.accepted && r'.trace.results == r.trace.results
            && |r'.trace.delivered| == |r.trace.delivered| + n
            && r'.trace.delivered[..|r.trace.delivered|] == r.trace.delivered
            && forall i :: 0 <= i < n ==>
                 r'.trace.delivered[|r.trace.delivered| + i] == Handed(r.queue.pending[i], client)
  {
    if n > 0 {
      PollsDeliver(cfg, client, r, n - 1);
    }
  }
}
