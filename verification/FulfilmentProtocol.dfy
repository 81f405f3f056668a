/**
 Concurrent fulfilment of orders. Completion tasks take a cache lock, read the order, write it back
 under the version they read, and release the lock; batch tasks read and write without that lock;
 other clients write too. Locks may expire, workers may die, requests may be lost before or after
 they take effect, messages may be duplicated and reordered. Every read and write is one step.
 */
module FulfilmentProtocol {
  import opened LineItemStates
  import opened Wrappers

  datatype Versioned = Versioned(version: nat, order: Order)

  /** A completion for an order and how often it was retried already. */
  datatype Envelope = Envelope(orderId: string, completion: Completion, retries: nat)

  /** What a batch asks for: every item from one state to another. When the first state is given by id,
      the client does not check whether the two are the same. A client made with retries enabled sends a
      failed update again, under the same version; a batch of a task is started over instead. */
  datatype BatchMove = BatchMove(from: StateKey, to: StateKey, byId: bool, clientRetries: bool)

  datatype Worker =
    | Delivered(env: Envelope)
    | Locked(env: Envelope)
    | HasOrder(env: Envelope, read: Versioned)
    | Releasing(env: Envelope, raised: bool)
    | Finished(env: Envelope, raised: bool)
    | Refused(env: Envelope)
    | Dead
    | BatchReady(orderId: string, move: BatchMove, retries: nat)
    | BatchHasOrder(orderId: string, move: BatchMove, retries: nat, read: Versioned)
    | BatchFinished(raised: bool)

  datatype Cause = Completing(completion: Completion) | Batching(move: BatchMove) | Unrelated

  /** An accepted write: what it was computed from and why. */
  datatype Commit = Commit(orderId: string, cause: Cause, read: Versioned)

  datatype State = State(
    orders: map<string, Versioned>,
    locks: set<string>,
    queue: multiset<Envelope>,
    workers: map<nat, Worker>,
    history: seq<Commit>)

  /** A request can be lost on its way, or its response on the way back. */
  datatype Fault = NoFault | RequestLost | ResponseLost

  datatype Event =
    | Send(orderId: string, completion: Completion)
    | Deliver(worker: nat, env: Envelope)
    | Acquire(worker: nat)
    | ReadOrder(worker: nat, fault: Fault)
    | WriteOrder(worker: nat, fault: Fault)
    | Release(worker: nat)
    | Expire(orderId: string)
    | Die(worker: nat)
    | StartBatch(worker: nat, orderId: string, move: BatchMove)
    | ReadBatch(worker: nat, fault: Fault)
    | WriteBatch(worker: nat, fault: Fault, handled: bool)
    | Touch(orderId: string)

  const MAX_RETRIES := 5

  /** How often a client with retries enabled sends an update at most. */
  const CLIENT_ATTEMPTS := 3

  // ----- The remote store -----

  /** `update_by_id`: applied only under the current version, completely or not at all. */
  function Update(s: State, commit: Commit, result: Option<Order>): Option<State> {
    if commit.orderId in s.orders && s.orders[commit.orderId].version == commit.read.version && result.Some? then
      Some(s.(orders := s.orders[commit.orderId := Versioned(commit.read.version + 1, result.value)],
              history := s.history + [commit]))
    else None
  }

  function Become(s: State, w: nat, k: Worker): State {
    s.(workers := s.workers[w := k])
  }

  // ----- Steps -----

  function StepAcquire(s: State, w: nat, env: Envelope): State {
    if env.orderId in s.locks then
      // a new task is queued for the message and this one ends
      Become(s, w, Refused(env)).(queue := s.queue + multiset{env.(retries := 0)})
    else Become(s, w, Locked(env)).(locks := s.locks + {env.orderId})
  }

  function StepRead(s: State, w: nat, env: Envelope, fault: Fault): State {
    if fault != NoFault || env.orderId !in s.orders then Become(s, w, Releasing(env, true))
    else Become(s, w, HasOrder(env, s.orders[env.orderId]))
  }

  function StepWrite(s: State, w: nat, env: Envelope, read: Versioned, fault: Fault): State {
    match PlanCompletion(read.order, env.completion)
    case Raises => Become(s, w, Releasing(env, true))
    case Actions(actions) =>
      if actions == [] then Become(s, w, Releasing(env, fault != NoFault))
      else if fault == RequestLost then Become(s, w, Releasing(env, true))
      else
        match Update(s, Commit(env.orderId, Completing(env.completion), read), ApplyActions(read.order, actions))
        case None => Become(s, w, Releasing(env, true))
        case Some(s') => Become(s', w, Releasing(env, fault == ResponseLost))
  }

  /** Deleting the lock does not ask who holds it. A task that raised is queued again. */
  function StepRelease(s: State, w: nat, env: Envelope, raised: bool): State {
    var s' := Become(s, w, Finished(env, raised)).(locks := s.locks - {env.orderId});
    if raised && env.retries < MAX_RETRIES then s'.(queue := s'.queue + multiset{env.(retries := env.retries + 1)})
    else s'
  }

  function BatchRaised(retries: nat, orderId: string, move: BatchMove): Worker {
    if !move.clientRetries && retries < MAX_RETRIES then BatchReady(orderId, move, retries + 1) else BatchFinished(true)
  }

  /** What becomes of a batch whose update failed; `handled` says that the error is one the client retries, which
      a refused update always is. */
  function BatchFailed(k: Worker, handled: bool): Worker
    requires k.BatchHasOrder?
  {
    if k.move.clientRetries && handled && k.retries + 1 < CLIENT_ATTEMPTS then k.(retries := k.retries + 1)
    else BatchRaised(k.retries, k.orderId, k.move)
  }

  predicate NothingToMove(move: BatchMove) {
    !move.byId && move.from == move.to
  }

  function StepReadBatch(s: State, w: nat, k: Worker, fault: Fault): State
    requires k.BatchReady?
  {
    if fault != NoFault || k.orderId !in s.orders then Become(s, w, BatchRaised(k.retries, k.orderId, k.move))
    else if s.orders[k.orderId].order == [] || NothingToMove(k.move) then Become(s, w, BatchFinished(false))
    else Become(s, w, BatchHasOrder(k.orderId, k.move, k.retries, s.orders[k.orderId]))
  }

  function StepWriteBatch(s: State, w: nat, k: Worker, fault: Fault, handled: bool): State
    requires k.BatchHasOrder?
  {
    if fault == RequestLost then Become(s, w, BatchFailed(k, handled))
    else
      match Update(s, Commit(k.orderId, Batching(k.move), k.read),
                   ApplyActions(k.read.order, PlanBatch(k.read.order, k.move.from, k.move.to)))
      case None => Become(s, w, BatchFailed(k, fault == NoFault || handled))
      case Some(s') => Become(s', w, if fault == ResponseLost then BatchFailed(k, handled) else BatchFinished(false))
  }

  /** One step; an event that is not enabled changes nothing. */
  function Step(s: State, e: Event): State {
    match e
    case Send(orderId, completion) => s.(queue := s.queue + multiset{Envelope(orderId, completion, 0)})
    case Deliver(w, env) =>
      if env in s.queue && w !in s.workers then Become(s, w, Delivered(env)).(queue := s.queue - multiset{env}) else s
    case Acquire(w) =>
      if w in s.workers && s.workers[w].Delivered? then StepAcquire(s, w, s.workers[w].env) else s
    case ReadOrder(w, fault) =>
      if w in s.workers && s.workers[w].Locked? then StepRead(s, w, s.workers[w].env, fault) else s
    case WriteOrder(w, fault) =>
      if w in s.workers && s.workers[w].HasOrder? then StepWrite(s, w, s.workers[w].env, s.workers[w].read, fault)
      else s
    case Release(w) =>
      if w in s.workers && s.workers[w].Releasing? then StepRelease(s, w, s.workers[w].env, s.workers[w].raised) else s
    case Expire(orderId) => s.(locks := s.locks - {orderId})
    case Die(w) => if w in s.workers then Become(s, w, Dead) else s
    case StartBatch(w, orderId, move) => if w !in s.workers then Become(s, w, BatchReady(orderId, move, 0)) else s
    case ReadBatch(w, fault) =>
      if w in s.workers && s.workers[w].BatchReady? then StepReadBatch(s, w, s.workers[w], fault) else s
    case WriteBatch(w, fault, handled) =>
      if w in s.workers && s.workers[w].BatchHasOrder? then StepWriteBatch(s, w, s.workers[w], fault, handled) else s
    case Touch(orderId) =>
      if orderId in s.orders then
        Update(s, Commit(orderId, Unrelated, s.orders[orderId]), Some(s.orders[orderId].order)).value
      else s
  }

  function Run(s: State, events: seq<Event>): State
    decreases |events|
  {
    if events == [] then s else Run(Step(s, events[0]), events[1..])
  }

  /** Nothing has happened yet: no locks, messages, workers or commits, and orders as the service
      creates them. */
  ghost predicate Init(s: State) {
    s.locks == {} && s.queue == multiset{} && s.workers == map[] && s.history == []
    && forall o :: o in s.orders ==> WellFormed(s.orders[o].order)
  }
}
