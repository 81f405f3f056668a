/**
 The fulfilment tasks on mutable state. Each method is one step of a task or of another client, with the
 branches and loops of the code, and is proved to do what the step function of the protocol says: its
 contract equates the new `View()` with `Step` of the old one. What the protocol's theorems say of runs
 therefore holds of these methods, called in any order. `AcquireTaskLock`, `ReleaseTaskLock` and
 `UpdateById` are the operations of the cache and of the order service that the steps are made of; the
 contract of `UpdateById` is the service's version rule.
 */
module FulfilmentService {
  import opened LineItemStates
  import opened FulfilmentProtocol
  import opened Wrappers

  class FulfilmentService {
    var orders: map<string, Versioned>
    var locks: set<string>
    var queue: multiset<Envelope>
    var workers: map<nat, Worker>
    var history: seq<Commit>

    ghost function View(): State
      reads this
    {
      State(orders, locks, queue, workers, history)
    }

    constructor (start: map<string, Versioned>)
      requires forall o :: o in start ==> WellFormed(start[o].order)
      ensures Init(View()) && orders == start
    {
      orders, locks, queue, workers, history := start, {}, multiset{}, map[], [];
    }

    /** acquire_task_lock: the cache adds the key unless it is there. */
    method AcquireTaskLock(key: string) returns (succeeded: bool)
      modifies this`locks
      ensures succeeded <==> key !in old(locks)
      ensures locks == old(locks) + {key}
    {
      succeeded := key !in locks;
      if succeeded {
        locks := locks + {key};
      } else {
        assert locks + {key} == locks;
      }
    }

    /** release_task_lock: the cache deletes the key, whoever set it. */
    method ReleaseTaskLock(key: string)
      modifies this`locks
      ensures locks == old(locks) - {key}
    {
      locks := locks - {key};
    }

    /** `orders.update_by_id`: nothing happens unless the version is current and every action is
        accepted. */
    method UpdateById(commit: Commit, actions: seq<Action>) returns (raised: bool)
      modifies this`orders, this`history
      ensures var accepted := commit.orderId in old(orders)
              && old(orders)[commit.orderId].version == commit.read.version
                              && ApplyActions(commit.read.order, actions).Some?;
              (raised <==> !accepted)
              && orders == (if accepted then old(orders)[commit.orderId := Versioned(commit.read.version + 1,
                 ApplyActions(commit.read.order, actions).value)]
                            else old(orders))
              && history == if accepted then old(history) + [commit] else old(history)
    {
      raised := true;
      if commit.orderId in orders && orders[commit.orderId].version == commit.read.version {
        var result := ApplyActions(commit.read.order, actions);
        if result.Some? {
          orders := orders[commit.orderId := Versioned(commit.read.version + 1, result.value)];
          history := history + [commit];
          raised := false;
        }
      }
    }

    method SendCompletion(orderId: string, completion: Completion)
      modifies this
      ensures View() == Step(old(View()), Send(orderId, completion))
    {
      queue := queue + multiset{Envelope(orderId, completion, 0)};
    }

    method DeliverTask(w: nat, env: Envelope)
      modifies this
      ensures View() == Step(old(View()), Deliver(w, env))
    {
      if env in queue && w !in workers {
        queue := queue - multiset{env};
        workers := workers[w := Delivered(env)];
      }
    }

    /** The start of the completion task: take the lock, or queue a new task and leave. */
    method BeginTask(w: nat)
      modifies this
      ensures View() == Step(old(View()), Acquire(w))
    {
      if w in workers && workers[w].Delivered? {
        var env := workers[w].env;
        var succeeded := AcquireTaskLock(env.orderId);
        if !succeeded {
          queue := queue + multiset{env.(retries := 0)};
          workers := workers[w := Refused(env)];
          assert locks == old(locks);
        } else {
          workers := workers[w := Locked(env)];
        }
      }
    }

    method GetOrderById(w: nat, fault: Fault)
      modifies this
      ensures View() == Step(old(View()), ReadOrder(w, fault))
    {
      if w in workers && workers[w].Locked? {
        var env := workers[w].env;
        if fault == NoFault && env.orderId in orders {
          workers := workers[w := HasOrder(env, orders[env.orderId])];
        } else {
          workers := workers[w := Releasing(env, true)];
        }
      }
    }

    /** update_line_item_on_fulfillment, with the exception handling around it. */
    method UpdateLineItemOnFulfilment(w: nat, fault: Fault)
      modifies this
      ensures View() == Step(old(View()), WriteOrder(w, fault))
    {
      if w in workers && workers[w].HasOrder? {
        var env, read := workers[w].env, workers[w].read;
        var plan := BuildCompletionActions(read.order, env.completion);
        var raised := true;
        if plan.Actions? {
          if plan.actions == [] {
            raised := fault != NoFault;
          } else if fault != RequestLost {
            raised := UpdateById(Commit(env.orderId, Completing(env.completion), read), plan.actions);
            raised := raised || fault == ResponseLost;
          }
        }
        workers := workers[w := Releasing(env, raised)];
      }
    }

    /** Every exit path: release the lock; a raised error makes Celery queue the message again. */
    method EndTask(w: nat)
      modifies this
      ensures View() == Step(old(View()), Release(w))
    {
      if w in workers && workers[w].Releasing? {
        var env, raised := workers[w].env, workers[w].raised;
        ReleaseTaskLock(env.orderId);
        if raised && env.retries < MAX_RETRIES {
          queue := queue + multiset{env.(retries := env.retries + 1)};
        }
        workers := workers[w := Finished(env, raised)];
      }
    }

    method ExpireLock(orderId: string)
      modifies this
      ensures View() == Step(old(View()), Expire(orderId))
    {
      ReleaseTaskLock(orderId);
    }

    method KillWorker(w: nat)
      modifies this
      ensures View() == Step(old(View()), Die(w))
    {
      if w in workers {
        workers := workers[w := Dead];
      }
    }

    method BeginBatch(w: nat, orderId: string, move: BatchMove)
      modifies this
      ensures View() == Step(old(View()), StartBatch(w, orderId, move))
    {
      if w !in workers {
        workers := workers[w := BatchReady(orderId, move, 0)];
      }
    }

    method GetOrderForBatch(w: nat, fault: Fault)
      modifies this
      ensures View() == Step(old(View()), ReadBatch(w, fault))
    {
      if w in workers && workers[w].BatchReady? {
        var k := workers[w];
        if fault != NoFault || k.orderId !in orders {
          workers := workers[w := BatchRaised(k.retries, k.orderId, k.move)];
        } else if orders[k.orderId].order == [] || NothingToMove(k.move) {
          workers := workers[w := BatchFinished(false)];
        } else {
          workers := workers[w := BatchHasOrder(k.orderId, k.move, k.retries, orders[k.orderId])];
        }
      }
    }

    /** update_line_items_transition_state: one action for every item, sent together. */
    method UpdateLineItemsTransitionState(w: nat, fault: Fault, handled: bool)
      modifies this
      ensures View() == Step(old(View()), WriteBatch(w, fault, handled))
    {
      if w in workers && workers[w].BatchHasOrder? {
        var k := workers[w];
        if fault == RequestLost {
          workers := workers[w := BatchFailed(k, handled)];
          return;
        }
        var actions := BuildBatchActions(k.read.order, k.move.from, k.move.to);
        var refused := UpdateById(Commit(k.orderId, Batching(k.move), k.read), actions);
        if refused {
          workers := workers[w := BatchFailed(k, fault == NoFault || handled)];
        } else {
          workers := workers[w := if fault == ResponseLost then BatchFailed(k, handled) else BatchFinished(false)];
        }
      }
    }

    /** Any other client's write to the order that leaves its line-item states alone. */
    method WriteElsewhere(orderId: string)
      modifies this
      ensures View() == Step(old(View()), Touch(orderId))
    {
      if orderId in orders {
        var raised := UpdateById(Commit(orderId, Unrelated, orders[orderId]), []);
      }
    }
  }
}
