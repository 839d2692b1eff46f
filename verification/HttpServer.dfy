/** crates/http-bidir-comm/src/server.rs: the queues in place, proved against their values. */
module HttpServers {
  import opened Wrappers
  import opened TaskQueueSpec
  import opened HttpServerSpec

  datatype ServerError = QueueFull | TaskNotProcessing | TaskOrClientUnknown

  datatype Stats = Stats(pending: nat, processing: nat, completed: nat, failed: nat, lastActivity: int)

  class ClientQueue<T, R> {
    var pending: seq<Task<T>>
    var processing: map<TaskId, Task<T>>
    var completed: seq<TaskResult<R>>
    var lastActivity: int

    constructor (now: int)
      ensures Value() == EmptyQueue() && lastActivity == now
    {
      pending, processing, completed, lastActivity := [], map[], [], now;
    }

    function Value(): Queue<T, R>
      reads this
    {
      Queue(pending, processing, completed)
    }

    method EnqueueTask(task: Task<T>, cfg: Config, now: int) returns (r: Result<(), ServerError>)
      modifies this
      ensures r.Err? <==> Enqueued(old(Value()), task, cfg).None?
      ensures r.Err? ==> r.error == QueueFull && unchanged(this)
      ensures r.Ok? ==> Some(Value()) == Enqueued(old(Value()), task, cfg) && lastActivity == now
    {
      if |pending| >= cfg.maxQueueSize {
        return Err(QueueFull);
      }
      pending := pending + [task];
      lastActivity := now;
      return Ok(());
    }

    method DequeueTask(clientId: ClientId, now: int) returns (handed: Option<Task<T>>)
      modifies this
      ensures (handed, Value()) == Dequeued(old(Value()), clientId)
      ensures handed.Some? ==> handed.value.state == Processing && handed.value.clientId == Some(clientId)
      ensures lastActivity == if handed.Some? then now else old(lastActivity)
    {
      if pending == [] {
        return None;
      }
      var task := pending[0];
      pending := pending[1..];
      task := task.(state := Processing, clientId := Some(clientId));
      processing := processing[task.id := task];
      lastActivity := now;
      return Some(task);
    }

    method CompleteTask(result: TaskResult<R>, cfg: Config, now: int) returns (r: Result<(), ServerError>)
      modifies this
      ensures r.Err? <==> result.taskId !in old(processing)
      ensures r.Err? ==> r.error == TaskNotProcessing && unchanged(this)
      ensures r.Ok? ==> Some(Value()) == Finished(old(Value()), result, cfg) && lastActivity == now
    {
      if result.taskId !in processing {
        return Err(TaskNotProcessing);
      }
      processing := processing - {result.taskId};
      if |completed| >= cfg.maxHistorySize && completed != [] {
        completed := completed[1..];
      }
      completed := completed + [result];
      lastActivity := now;
      return Ok(());
    }

    method GetStats() returns (stats: Stats)
      ensures stats.pending == |pending| && stats.processing == |processing| && stats.completed == |completed|
      ensures stats.failed == |FailedAt(completed)| && stats.lastActivity == lastActivity
    {
      var failed := 0;
      for i := 0 to |completed|
        invariant failed == |Failures(completed[..i])|
      {
        assert completed[..i + 1][..i] == completed[..i];
        if !completed[i].success {
          failed := failed + 1;
        }
      }
      assert completed[..|completed|] == completed;
      FailuresCounted(completed);
      return Stats(|pending|, |processing|, |completed|, failed, lastActivity);
    }
  }

  function Failures<R>(results: seq<TaskResult<R>>): seq<TaskResult<R>> {
    if results == [] then []
    else
      var last := results[|results| - 1];
      Failures(results[..|results| - 1]) + (if last.success then [] else [last])
  }

  /** The positions of the unsuccessful results. */
  function FailedAt<R>(results: seq<TaskResult<R>>): set<nat> {
    set i: nat | i < |results| && !results[i].success
  }

  lemma FailedAtEnd<R>(results: seq<TaskResult<R>>)
    requires results != []
    ensures var n := |results| - 1;
            FailedAt(results) == FailedAt(results[..n]) + (if results[n].success then {} else {n})
  {
  }

  /** The failures are as many as there are positions of an unsuccessful result. */
  lemma {:induction false} FailuresCounted<R>(results: seq<TaskResult<R>>)
    ensures |Failures(results)| == |FailedAt(results)|
  {
    if results != [] {
      var n := |results| - 1;
      FailuresCounted(results[..n]);
      FailedAtEnd(results);
      assert n !in FailedAt(results[..n]);
    }
  }

  class HttpServer<T, R> {
    const cfg: Config
    var queues: map<ClientId, ClientQueue<T, R>>

    constructor (cfg: Config)
      ensures Valid() && View() == map[] && this.cfg == cfg
    {
      this.cfg := cfg;
      queues := map[];
    }

    /** Different clients have different queue objects. */
    ghost predicate Valid()
      reads this
    {
      forall c, d :: c in queues && d in queues && queues[c] == queues[d] ==> c == d
    }

    function View(): Queues<T, R>
      reads this, queues.Values
    {
      map c | c in queues :: queues[c].Value()
    }

    method OpenQueue(clientId: ClientId, now: int) returns (queue: ClientQueue<T, R>)
      requires Valid()
      modifies this
      ensures Valid() && clientId in queues && queues[clientId] == queue
      ensures clientId in old(queues) ==> queues == old(queues)
      ensures clientId !in old(queues) ==> fresh(queue) && queues == old(queues)[clientId := queue]
      ensures queue.Value() == Opened(old(View()), clientId)
      ensures View() == old(View())[clientId := queue.Value()]
    {
      if clientId !in queues {
        queue := new ClientQueue(now);
        queues := queues[clientId := queue];
      } else {
        queue := queues[clientId];
      }
    }

    method EnqueueTaskForClient(clientId: ClientId, id: TaskId, data: T, now: int)
      returns (r: Result<TaskId, ServerError>)
      requires Valid()
      modifies this, queues.Values
      ensures Valid()
      ensures View() == ServerStep(cfg, old(View()), Enqueue(clientId, id, data))
      ensures r == if |Opened(old(View()), clientId).pending| < cfg.maxQueueSize then Ok(id) else Err(QueueFull)
    {
      ghost var before := View();
      var queue := OpenQueue(clientId, now);
      var enqueued := queue.EnqueueTask(NewTask(id, data), cfg, now);
      OneQueueChanged(before, Opened(before, clientId), clientId);
      r := if enqueued.Ok? then Ok(id) else Err(enqueued.error);
    }

    method PollTask(clientId: ClientId, now: int) returns (handed: Option<Task<T>>)
      requires Valid()
      modifies this, queues.Values
      ensures Valid()
      ensures View() == ServerStep(cfg, old(View()), Poll(clientId))
      ensures handed == Dequeued(Opened(old(View()), clientId), clientId).0
    {
      ghost var before := View();
      var queue := OpenQueue(clientId, now);
      handed := queue.DequeueTask(clientId, now);
      OneQueueChanged(before, Opened(before, clientId), clientId);
    }

    method SubmitResult(result: TaskResult<R>, now: int) returns (r: Result<(), ServerError>)
      requires Valid()
      modifies queues.Values
      ensures Valid() && queues == old(queues)
      ensures View() == ServerStep(cfg, old(View()), Submit(result))
      ensures r.Ok? <==> result.clientId in old(View()) && result.taskId in old(View())[result.clientId].processing
    {
      ghost var before := View();
      if result.clientId in queues {
        var queue := queues[result.clientId];
        if result.taskId in queue.processing {
          r := queue.CompleteTask(result, cfg, now);
          OneQueueChanged(before, before[result.clientId], result.clientId);
          return;
        }
      }
      return Err(TaskOrClientUnknown);
    }

    lemma OneQueueChanged(before: Queues<T, R>, start: Queue<T, R>, clientId: ClientId)
      requires clientId in queues && queues.Keys == before.Keys + {clientId}
      requires forall c :: c in queues && c != clientId ==> queues[c].Value() == before[clientId := start][c]
      ensures View() == before[clientId := queues[clientId].Value()]
    {
    }
  }
}
