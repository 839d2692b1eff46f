/** The HTTP server as one queue per client: every client sees exactly its own queue. */
module HttpServerSpec {
  import opened TaskQueueSpec

  datatype Event<T, R> =
    | Enqueue(client: ClientId, id: TaskId, data: T)
    | Poll(client: ClientId)
    | Submit(result: TaskResult<R>)

  type Queues<T, R> = map<ClientId, Queue<T, R>>

  /** A queue is created when a client is first enqueued for or polls. */
  function Opened<T, R>(queues: Queues<T, R>, client: ClientId): Queue<T, R> {
    if client in queues then queues[client] else EmptyQueue()
  }

  /** A full queue refuses the task; the queue exists from then on all the same. */
  function EnqueueFor<T, R>(cfg: Config, queues: Queues<T, R>, client: ClientId, task: Task<T>): Queues<T, R> {
    var q := Opened(queues, client);
    queues[client := Enqueued(q, task, cfg).UnwrapOr(q)]
  }

  function PollFor<T, R>(queues: Queues<T, R>, client: ClientId): Queues<T, R> {
    queues[client := Dequeued(Opened(queues, client), client).1]
  }

  function SubmitTo<T, R>(cfg: Config, queues: Queues<T, R>, result: TaskResult<R>): Queues<T, R> {
    if result.clientId !in queues then queues
    else match Finished(queues[result.clientId], result, cfg)
         case None => queues
         case Some(q) => queues[result.clientId := q]
  }

  function ServerStep<T, R>(cfg: Config, queues: Queues<T, R>, e: Event<T, R>): Queues<T, R> {
    match e
    case Enqueue(client, id, data) => EnqueueFor(cfg, queues, client, NewTask(id, data))
    case Poll(client) => PollFor(queues, client)
    case Submit(result) => SubmitTo(cfg, queues, result)
  }

  function ServerRun<T, R>(cfg: Config, events: seq<Event<T, R>>): Queues<T, R> {
    if events == [] then map[]
    else ServerStep(cfg, ServerRun(cfg, events[..|events| - 1]), events[|events| - 1])
  }

  function OpFor<T, R>(e: Event<T, R>, client: ClientId): seq<Op<T, R>> {
    match e
    case Enqueue(c, id, data) => if c == client then [Put(NewTask(id, data))] else []
    case Poll(c) => if c == client then [Take] else []
    case Submit(result) => if result.clientId == client then [Finish(result)] else []
  }

  /** What a run does to one client's queue. */
  function Project<T, R>(events: seq<Event<T, R>>, client: ClientId): seq<Op<T, R>> {
    if events == [] then []
    else Project(events[..|events| - 1], client) + OpFor(events[|events| - 1], client)
  }

  function TraceOf<T, R>(cfg: Config, events: seq<Event<T, R>>, client: ClientId): Trace<T, R> {
    QueueRun(cfg, client, Project(events, client)).trace
  }

  /** One more event is at most one more operation of the client's queue. */
  lemma Unfold<T, R>(cfg: Config, events: seq<Event<T, R>>, client: ClientId)
    requires events != []
    ensures var before := QueueRun(cfg, client, Project(events[..|events| - 1], client));
            var op := OpFor(events[|events| - 1], client);
            QueueRun(cfg, client, Project(events, client)) ==
            if op == [] then before else QueueStep(cfg, client, before, op[0])
  {
    var ops, op := Project(events[..|events| - 1], client), OpFor(events[|events| - 1], client);
    if op == [] {
      assert ops + op == ops;
    } else {
      assert (ops + op)[..|ops|] == ops && (ops + op)[|ops|] == op[0];
    }
  }

  /** An event does to a client's queue what its operation for that client does, and nothing when it has none. */
  lemma EventOnQueue<T, R>(cfg: Config, queues: Queues<T, R>, e: Event<T, R>, client: ClientId, trace: Trace<T, R>)
    ensures var before, op := Opened(queues, client), OpFor(e, client);
            Opened(ServerStep(cfg, queues, e), client) ==
            if op == [] then before else QueueStep(cfg, client, Run(before, trace), op[0]).queue
  {
    match e {
      case Enqueue(c, id, data) =>
      case Poll(c) =>
      case Submit(result) =>
    }
  }

  /** Clients are isolated: a client's queue is what the client's own events make of an empty queue. */
  lemma {:induction false} ClientsAreIsolated<T, R>(cfg: Config, events: seq<Event<T, R>>, client: ClientId)
    ensures Opened(ServerRun(cfg, events), client) == QueueRun(cfg, client, Project(events, client)).queue
  {
    if events != [] {
      var before, e := events[..|events| - 1], events[|events| - 1];
      ClientsAreIsolated(cfg, before, client);
      EventOnQueue(cfg, ServerRun(cfg, before), e, client, TraceOf(cfg, before, client));
      Unfold(cfg, events, client);
    }
  }

  predicate UniqueIds<T, R>(events: seq<Event<T, R>>) {
    forall i, j :: 0 <= i < j < |events| && events[i].Enqueue? && events[j].Enqueue? ==> events[i].id != events[j].id
  }

  /** What one more event adds to what a client has accepted. */
  lemma AcceptedStep<T, R>(cfg: Config, events: seq<Event<T, R>>, client: ClientId)
    requires events != []
    ensures var accepted := TraceOf(cfg, events[..|events| - 1], client).accepted;
            var accepted' := TraceOf(cfg, events, client).accepted;
            var e := events[|events| - 1];
            accepted' == accepted ||
            (e.Enqueue? && e == Enqueue(client, e.id, e.data) && accepted' == accepted + [NewTask(e.id, e.data)])
  {
    Unfold(cfg, events, client);
  }

  ghost predicate WasEnqueued<T, R>(events: seq<Event<T, R>>, client: ClientId, task: Task<T>) {
    exists k :: 0 <= k < |events| && events[k] == Enqueue(client, task.id, task.data)
  }

  /** A client accepts only tasks that were enqueued for it. */
  lemma {:induction false} AcceptedWereEnqueued<T, R>(cfg: Config, events: seq<Event<T, R>>, client: ClientId)
    ensures forall task :: task in TraceOf(cfg, events, client).accepted ==> WasEnqueued(events, client, task)
  {
    if events != [] {
      var before, e := events[..|events| - 1], events[|events| - 1];
      AcceptedWereEnqueued(cfg, before, client);
      AcceptedStep(cfg, events, client);
      forall task | task in TraceOf(cfg, events, client).accepted
        ensures WasEnqueued(events, client, task)
      {
        if task in TraceOf(cfg, before, client).accepted {
          var k :| 0 <= k < |before| && before[k] == Enqueue(client, task.id, task.data);
          assert events[k] == Enqueue(client, task.id, task.data);
        } else {
          assert events[|before|] == Enqueue(client, task.id, task.data);
        }
      }
    }
  }

  lemma {:induction false} AcceptedIdsAreDistinct<T, R>(cfg: Config, events: seq<Event<T, R>>, client: ClientId)
    requires UniqueIds(events)
    ensures Distinct(Ids(TraceOf(cfg, events, client).accepted))
  {
    if events != [] {
      var before, e := events[..|events| - 1], events[|events| - 1];
      var accepted := TraceOf(cfg, before, client).accepted;
      AcceptedIdsAreDistinct(cfg, before, client);
      AcceptedStep(cfg, events, client);
      AcceptedWereEnqueued(cfg, before, client);
      if e.Enqueue? {
        forall task | task in accepted
          ensures task.id != e.id
        {
          var k :| 0 <= k < |before| && before[k] == Enqueue(client, task.id, task.data);
          assert events[k] == before[k];
        }
        NewIdIsDistinct(accepted, NewTask(e.id, e.data));
      }
    }
  }

  lemma NewIdIsDistinct<T>(tasks: seq<Task<T>>, task: Task<T>)
    requires Distinct(Ids(tasks)) && forall other :: other in tasks ==> other.id != task.id
    ensures Distinct(Ids(tasks + [task]))
  {
    assert forall i :: 0 <= i < |tasks| ==> tasks[i] in tasks;
  }

  /** The server's guarantee, over every run with unique task ids and for every client. */
  lemma {:induction false} ServerDelivers<T, R>(cfg: Config, events: seq<Event<T, R>>, client: ClientId)
    requires UniqueIds(events)
    ensures var r := Run(Opened(ServerRun(cfg, events), client), TraceOf(cfg, events, client));
            Conserved(cfg, client, r) && Bounded(cfg, r)
  {
    ClientsAreIsolated(cfg, events, client);
    AcceptedIdsAreDistinct(cfg, events, client);
    RunConserves(cfg, client, Project(events, client));
    RunIsBounded(cfg, client, Project(events, client));
  }

  lemma AcceptedByOne<T, R>(cfg: Config, events: seq<Event<T, R>>,
                            one: ClientId, other: ClientId, task: Task<T>, task': Task<T>)
    requires UniqueIds(events) && one != other
    requires task in TraceOf(cfg, events, one).accepted && task' in TraceOf(cfg, events, other).accepted
    ensures task.id != task'.id
  {
    AcceptedWereEnqueued(cfg, events, one);
    AcceptedWereEnqueued(cfg, events, other);
    var k :| 0 <= k < |events| && events[k] == Enqueue(one, task.id, task.data);
    var l :| 0 <= l < |events| && events[l] == Enqueue(other, task'.id, task'.data);
  }

  /** A task accepted for one client is never handed to, nor finished by, another. */
  lemma {:induction false} TasksBelongToOneClient<T, R>(
      cfg: Config, events: seq<Event<T, R>>, one: ClientId, other: ClientId, id: TaskId)
    requires UniqueIds(events) && one != other && id in Ids(TraceOf(cfg, events, one).accepted)
    ensures id !in Ids(TraceOf(cfg, events, other).delivered) && id !in ResultIds(TraceOf(cfg, events, other).results)
  {
    ServerDelivers(cfg, events, other);
    var accepted, tr := TraceOf(cfg, events, one).accepted, TraceOf(cfg, events, other);
    var i :| 0 <= i < |accepted| && Ids(accepted)[i] == id;
    forall j | 0 <= j < |tr.delivered|
      ensures Ids(tr.delivered)[j] != id
    {
      AcceptedByOne(cfg, events, one, other, accepted[i], tr.accepted[j]);
    }
  }

  /** The history bound of the configuration is kept exactly when it is at least 1: a bound of 0 keeps one result. */
  lemma {:induction false} HistoryBound<T, R>(cfg: Config, events: seq<Event<T, R>>, client: ClientId)
    requires UniqueIds(events)
    ensures |Opened(ServerRun(cfg, events), client).completed| <= cfg.maxHistorySize <==>
            cfg.maxHistorySize >= 1 || TraceOf(cfg, events, client).results == []
  {
    ServerDelivers(cfg, events, client);
  }
}
