/** No completion message is lost, and what a fulfilment task achieves when nothing disturbs it. */
module FulfilmentProgress {
  import opened LineItemStates
  import opened FulfilmentProtocol
  import opened FulfilmentTheorems
  import opened Wrappers

  // ----- Where a message is -----

  /** How often the completion was sent for the order. */
  function Sent(events: seq<Event>, orderId: string, c: Completion): nat {
    if events == [] then 0
    else (if events[0] == Send(orderId, c) then 1 else 0) + Sent(events[1..], orderId, c)
  }

  predicate IsFor(env: Envelope, orderId: string, c: Completion) {
    env.orderId == orderId && env.completion == c
  }

  predicate AtWork(k: Worker) {
    k.Delivered? || k.Locked? || k.HasOrder? || k.Releasing?
  }

  /** A task works on it. */
  predicate InHand(k: Worker, orderId: string, c: Completion) {
    AtWork(k) && IsFor(k.env, orderId, c)
  }

  /** A task for it has ended without an error. */
  predicate Acknowledged(k: Worker, orderId: string, c: Completion) {
    k.Finished? && !k.raised && IsFor(k.env, orderId, c)
  }

  /** A task for it has ended with an error, the last of six attempts. */
  predicate GivenUp(k: Worker, orderId: string, c: Completion) {
    k.Finished? && k.raised && k.env.retries == 5 && IsFor(k.env, orderId, c)
  }

  predicate Accounts(k: Worker, orderId: string, c: Completion) {
    InHand(k, orderId, c) || Acknowledged(k, orderId, c) || GivenUp(k, orderId, c)
  }

  /** Copies in the queue, with up to n retries behind them. */
  function Queued(queue: multiset<Envelope>, orderId: string, c: Completion, n: nat): nat {
    queue[Envelope(orderId, c, n)] + if n == 0 then 0 else Queued(queue, orderId, c, n - 1)
  }

  function Accounting(s: State, orderId: string, c: Completion): set<nat> {
    set w | w in s.workers && Accounts(s.workers[w], orderId, c)
  }

  function AtWorkOn(s: State, orderId: string, c: Completion): set<nat> {
    set w | w in s.workers && InHand(s.workers[w], orderId, c)
  }

  function DoneWith(s: State, orderId: string, c: Completion): set<nat> {
    set w | w in s.workers && Acknowledged(s.workers[w], orderId, c)
  }

  function GaveUpOn(s: State, orderId: string, c: Completion): set<nat> {
    set w | w in s.workers && GivenUp(s.workers[w], orderId, c)
  }

  /** All the places a message can be in. */
  function Balance(s: State, orderId: string, c: Completion): nat {
    Queued(s.queue, orderId, c, 5) + |Accounting(s, orderId, c)|
  }

  /** Nothing is retried more than five times. */
  ghost predicate Bounded(s: State) {
    (forall env :: env in s.queue ==> env.retries <= 5)
    && forall w :: w in s.workers ==> AtWork(s.workers[w]) ==> s.workers[w].env.retries <= 5
  }

  lemma {:induction false} QueuedMore(queue: multiset<Envelope>, env: Envelope, orderId: string, c: Completion, n: nat)
    ensures Queued(queue + multiset{env}, orderId, c, n)
            == Queued(queue, orderId, c, n) + if IsFor(env, orderId, c) && env.retries <= n then 1 else 0
  {
    if n > 0 { QueuedMore(queue, env, orderId, c, n - 1); }
  }

  lemma QueuedLess(queue: multiset<Envelope>, env: Envelope, orderId: string, c: Completion, n: nat)
    requires env in queue
    ensures Queued(queue, orderId, c, n)
            == Queued(queue - multiset{env}, orderId, c, n) + if IsFor(env, orderId, c) && env.retries <= n then 1
                else 0
  {
    QueuedMore(queue - multiset{env}, env, orderId, c, n);
    assert queue - multiset{env} + multiset{env} == queue;
  }

  /** One worker changes. */
  lemma AccountingAfter(s: State, s': State, w: nat, k: Worker, orderId: string, c: Completion)
    requires s'.workers == s.workers[w := k]
    ensures |Accounting(s', orderId, c)| + (if w in s.workers && Accounts(s.workers[w], orderId, c) then 1 else 0)
            == |Accounting(s, orderId, c)| + if Accounts(k, orderId, c) then 1 else 0
  {
    var before, after := Accounting(s, orderId, c), Accounting(s', orderId, c);
    assert before - {w} == after - {w};
    assert w in before ==> before == (before - {w}) + {w};
    assert w in after ==> after == (after - {w}) + {w};
  }

  // ----- No step loses a message -----

  lemma DeliverBalances(s: State, w: nat, env: Envelope, orderId: string, c: Completion)
    requires Bounded(s)
    ensures Balance(Step(s, Deliver(w, env)), orderId, c) == Balance(s, orderId, c) && Bounded(Step(s, Deliver(w, env)))
  {
    if env in s.queue && w !in s.workers {
      QueuedLess(s.queue, env, orderId, c, 5);
      AccountingAfter(s, Step(s, Deliver(w, env)), w, Delivered(env), orderId, c);
    }
  }

  lemma AcquireBalances(s: State, w: nat, orderId: string, c: Completion)
    requires Bounded(s)
    ensures Balance(Step(s, Acquire(w)), orderId, c) == Balance(s, orderId, c) && Bounded(Step(s, Acquire(w)))
  {
    if w in s.workers && s.workers[w].Delivered? {
      var env := s.workers[w].env;
      if env.orderId in s.locks {
        QueuedMore(s.queue, env.(retries := 0), orderId, c, 5);
        AccountingAfter(s, Step(s, Acquire(w)), w, Refused(env), orderId, c);
      } else {
        AccountingAfter(s, Step(s, Acquire(w)), w, Locked(env), orderId, c);
      }
    }
  }

  lemma ReadBalances(s: State, w: nat, fault: Fault, orderId: string, c: Completion)
    requires Bounded(s)
    ensures var s' := Step(s, ReadOrder(w, fault)); Balance(s', orderId, c) == Balance(s, orderId, c) && Bounded(s')
  {
    var s' := Step(s, ReadOrder(w, fault));
    if w in s.workers && s.workers[w].Locked? {
      AccountingAfter(s, s', w, s'.workers[w], orderId, c);
    }
  }

  /** A write moves its worker on and leaves the queue alone. */
  lemma WriteShape(s: State, w: nat, env: Envelope, read: Versioned, fault: Fault)
    ensures var s' := StepWrite(s, w, env, read, fault);
            s'.queue == s.queue && w in s'.workers && s'.workers == s.workers[w := s'.workers[w]]
            && s'.workers[w].Releasing? && s'.workers[w].env == env
  {
  }

  lemma WriteBalances(s: State, w: nat, fault: Fault, orderId: string, c: Completion)
    requires Bounded(s)
    ensures var s' := Step(s, WriteOrder(w, fault)); Balance(s', orderId, c) == Balance(s, orderId, c) && Bounded(s')
  {
    var s' := Step(s, WriteOrder(w, fault));
    if w in s.workers && s.workers[w].HasOrder? {
      WriteShape(s, w, s.workers[w].env, s.workers[w].read, fault);
      AccountingAfter(s, s', w, s'.workers[w], orderId, c);
    }
  }

  lemma ReleaseBalances(s: State, w: nat, orderId: string, c: Completion)
    requires Bounded(s)
    ensures Balance(Step(s, Release(w)), orderId, c) == Balance(s, orderId, c) && Bounded(Step(s, Release(w)))
  {
    if w in s.workers && s.workers[w].Releasing? {
      var k := s.workers[w];
      AccountingAfter(s, Step(s, Release(w)), w, Finished(k.env, k.raised), orderId, c);
      if k.raised && k.env.retries < MAX_RETRIES {
        QueuedMore(s.queue, k.env.(retries := k.env.retries + 1), orderId, c, 5);
      }
    }
  }

  predicate OfBatch(k: Worker) {
    k.BatchReady? || k.BatchHasOrder? || k.BatchFinished?
  }

  /** A step of a batch moves a batch and leaves the queue alone. */
  lemma BatchShape(s: State, e: Event, w: nat)
    requires e.StartBatch? || e.ReadBatch?
    requires w == e.worker
    ensures var s' := Step(s, e);
            s'.queue == s.queue
            && (s'.workers == s.workers
                || (w in s'.workers && s'.workers == s.workers[w := s'.workers[w]] && OfBatch(s'.workers[w])
                    && (w in s.workers ==> OfBatch(s.workers[w]))))
  {
  }

  lemma BatchWriteShape(s: State, w: nat, k: Worker, fault: Fault, handled: bool)
    requires k.BatchHasOrder?
    ensures var s' := StepWriteBatch(s, w, k, fault, handled);
            s'.queue == s.queue && w in s'.workers && s'.workers == s.workers[w := s'.workers[w]]
                && OfBatch(s'.workers[w])
  {
  }

  lemma BatchBalances(s: State, e: Event, orderId: string, c: Completion)
    requires Bounded(s) && (e.StartBatch? || e.ReadBatch? || e.WriteBatch?)
    ensures Balance(Step(s, e), orderId, c) == Balance(s, orderId, c) && Bounded(Step(s, e))
  {
    var s', w := Step(s, e), e.worker;
    if e.WriteBatch? {
      if w in s.workers && s.workers[w].BatchHasOrder? { BatchWriteShape(s, w, s.workers[w], e.fault, e.handled); }
    } else {
      BatchShape(s, e, w);
    }
    if s'.workers != s.workers { AccountingAfter(s, s', w, s'.workers[w], orderId, c); }
  }

  lemma OtherBalances(s: State, e: Event, orderId: string, c: Completion)
    requires Bounded(s) && (e.Send? || e.Expire? || e.Touch?)
    ensures Balance(Step(s, e), orderId, c) == Balance(s, orderId, c) + (if e == Send(orderId, c) then 1 else 0)
    ensures Bounded(Step(s, e))
  {
    if e.Send? { QueuedMore(s.queue, Envelope(e.orderId, e.completion, 0), orderId, c, 5); }
    assert Accounting(Step(s, e), orderId, c) == Accounting(s, orderId, c);
  }

  lemma StepBalances(s: State, e: Event, orderId: string, c: Completion)
    requires Bounded(s) && !e.Die?
    ensures Balance(Step(s, e), orderId, c) == Balance(s, orderId, c) + (if e == Send(orderId, c) then 1 else 0)
    ensures Bounded(Step(s, e))
  {
    match e
    case Deliver(w, env) => DeliverBalances(s, w, env, orderId, c);
    case Acquire(w) => AcquireBalances(s, w, orderId, c);
    case ReadOrder(w, fault) => ReadBalances(s, w, fault, orderId, c);
    case WriteOrder(w, fault) => WriteBalances(s, w, fault, orderId, c);
    case Release(w) => ReleaseBalances(s, w, orderId, c);
    case StartBatch(_, _, _) => BatchBalances(s, e, orderId, c);
    case ReadBatch(_, _) => BatchBalances(s, e, orderId, c);
    case WriteBatch(_, _, _) => BatchBalances(s, e, orderId, c);
    case _ => OtherBalances(s, e, orderId, c);
  }

  lemma {:induction false} RunBalances(s: State, events: seq<Event>, orderId: string, c: Completion)
    requires Bounded(s) && NobodyDies(events)
    ensures Balance(Run(s, events), orderId, c) == Balance(s, orderId, c) + Sent(events, orderId, c)
    decreases |events|
  {
    if events != [] {
      StepBalances(s, events[0], orderId, c);
      assert forall i :: 0 <= i < |events[1..]| ==> events[1..][i] == events[i + 1];
      RunBalances(Step(s, events[0]), events[1..], orderId, c);
    }
  }

  ghost predicate NobodyDies(events: seq<Event>) {
    forall i :: 0 <= i < |events| ==> !events[i].Die?
  }

  /** Conservation of messages, in every run in which no worker dies: however often the lock is taken, requests are
      lost and writes refused, each time a completion was sent for an order is accounted for exactly once: by a copy
      in the queue, by a task at work on it, by a task that ended without an error, or by one that ended with an error
      after five retries. */
  lemma MessagesAreConserved(start: State, events: seq<Event>, orderId: string, c: Completion)
    requires Init(start) && NobodyDies(events)
    ensures var s := Run(start, events);
            Sent(events, orderId, c)
            == Queued(s.queue, orderId, c, 5)
               + |AtWorkOn(s, orderId, c)| + |DoneWith(s, orderId, c)| + |GaveUpOn(s, orderId, c)|
  {
    var s := Run(start, events);
    RunBalances(start, events, orderId, c);
    NothingQueued(start.queue, orderId, c, 5);
    assert Accounting(start, orderId, c) == {};
    PlacesAreDisjoint(s, orderId, c);
  }

  lemma PlacesAreDisjoint(s: State, orderId: string, c: Completion)
    ensures |Accounting(s, orderId, c)|
            == |AtWorkOn(s, orderId, c)| + |DoneWith(s, orderId, c)| + |GaveUpOn(s, orderId, c)|
  {
    var a, b, d := AtWorkOn(s, orderId, c), DoneWith(s, orderId, c), GaveUpOn(s, orderId, c);
    assert Accounting(s, orderId, c) == a + b + d;
    SizeOfThree(a, b, d);
  }

  lemma SizeOfThree(a: set<nat>, b: set<nat>, d: set<nat>)
    requires a !! b && a !! d && b !! d
    ensures |a + b + d| == |a| + |b| + |d|
  {
    assert |a + b| == |a| + |b|;
    assert (a + b) !! d;
  }

  lemma {:induction false} NothingQueued(queue: multiset<Envelope>, orderId: string, c: Completion, n: nat)
    requires queue == multiset{}
    ensures Queued(queue, orderId, c, n) == 0
  {
    if n > 0 { NothingQueued(queue, orderId, c, n - 1); }
  }

  // ----- Undisturbed tasks -----

  lemma RunFive(s: State, a: Event, b: Event, c: Event, d: Event, e: Event)
    ensures Run(s, [a, b, c, d, e]) == Step(Step(Step(Step(Step(s, a), b), c), d), e)
  {
    var es := [a, b, c, d, e];
    assert es[1..][1..][1..][1..] == [e] && [e][1..] == [];
    var s4 := Step(Step(Step(Step(s, a), b), c), d);
    assert Run(s4, es[1..][1..][1..][1..]) == Step(s4, e);
    assert Run(Step(Step(Step(s, a), b), c), es[1..][1..][1..]) == Step(s4, e);
    assert Run(Step(Step(s, a), b), es[1..][1..]) == Step(s4, e);
    assert Run(Step(s, a), es[1..]) == Step(s4, e);
  }

  /** A completion is accepted for an item that is, or was, being processed. */
  predicate Accepted(from: StateKey) {
    from != Initial && from != Pending
  }

  /** What an accepted completion makes of its item. */
  function Fulfilled(item: LineItem, c: Completion): LineItem
    requires item.state != []
  {
    var next := if StateOf(item) == Success || c.isFulfilled then Success else Failure;
    LineItem(item.id, item.quantity, [Portion(next, item.quantity)],
             if c.entitlement != "" then c.entitlement else item.entitlement)
  }

  lemma CompletionOf(order: Order, c: Completion, i: nat)
    requires WellFormed(order) && i < |order| && order[i].id == c.itemId
    ensures Complete(order, c) == if Accepted(StateOf(order[i]))
                                  then Some(order[i := Fulfilled(order[i], c)]) else None
    ensures PlanCompletion(order, c).Actions?
  {
    CompleteEffect(order, c, i);
    FindIndex(order, i);
  }

  /** A task that nothing disturbs, in any state where its message is queued and the lock of its order is free: the lock
      is free again at the end. An accepted completion is in the order and the task ends without an error; any other
      leaves the order alone, and the message is queued again unless it was retried five times. */
  lemma UndisturbedTaskCompletes(s: State, w: nat, env: Envelope, i: nat)
    requires env in s.queue && w !in s.workers && env.orderId !in s.locks && env.orderId in s.orders
    requires var order := s.orders[env.orderId].order;
             WellFormed(order) && i < |order| && order[i].id == env.completion.itemId
    ensures var t := Run(s, [Deliver(w, env), Acquire(w), ReadOrder(w, NoFault), WriteOrder(w, NoFault), Release(w)]);
            var order, c := s.orders[env.orderId].order, env.completion;
            var accepted := Accepted(StateOf(order[i]));
            t.locks == s.locks && env.orderId in t.orders
            && t.workers == s.workers[w := Finished(env, !accepted)]
            && t.orders[env.orderId].order == (if accepted then order[i := Fulfilled(order[i], c)] else order)
            && t.queue == (s.queue - multiset{env})
                          + if !accepted && env.retries < 5 then multiset{env.(retries := env.retries + 1)}
                              else multiset{}
  {
    RunFive(s, Deliver(w, env), Acquire(w), ReadOrder(w, NoFault), WriteOrder(w, NoFault), Release(w));
    TaskActs(s, w, env, i);
    var s4 := Step(Step(Step(Step(s, Deliver(w, env)), Acquire(w)), ReadOrder(w, NoFault)), WriteOrder(w, NoFault));
    var raised := !Accepted(StateOf(s.orders[env.orderId].order[i]));
    TaskReleases(s4, w, env, raised);
    assert s.locks + {env.orderId} - {env.orderId} == s.locks;
    assert s4.workers[w := Finished(env, raised)] == s.workers[w := Finished(env, raised)];
  }

  /** Up to the release of the lock. */
  lemma TaskActs(s: State, w: nat, env: Envelope, i: nat)
    requires env in s.queue && w !in s.workers && env.orderId !in s.locks && env.orderId in s.orders
    requires var order := s.orders[env.orderId].order;
             WellFormed(order) && i < |order| && order[i].id == env.completion.itemId
    ensures var t := Step(Step(Step(Step(s, Deliver(w, env)), Acquire(w)), ReadOrder(w, NoFault)),
                          WriteOrder(w, NoFault));
            var order, c := s.orders[env.orderId].order, env.completion;
            var accepted := Accepted(StateOf(order[i]));
            env.orderId in t.orders && t.locks == s.locks + {env.orderId} && t.queue == s.queue - multiset{env}
            && t.workers == s.workers[w := Releasing(env, !accepted)]
            && t.orders[env.orderId].order == if accepted then order[i := Fulfilled(order[i], c)] else order
  {
    var read := s.orders[env.orderId];
    TaskReadsOrder(s, w, env);
    var s3 := Step(Step(Step(s, Deliver(w, env)), Acquire(w)), ReadOrder(w, NoFault));
    CompletionOf(read.order, env.completion, i);
    TaskWritesOrder(s3, w, env, read);
    var raised := !Accepted(StateOf(read.order[i]));
    assert s3.workers[w := Releasing(env, raised)] == s.workers[w := Releasing(env, raised)];
  }

  lemma TaskReleases(s: State, w: nat, env: Envelope, raised: bool)
    requires w in s.workers && s.workers[w] == Releasing(env, raised)
    ensures var t := Step(s, Release(w));
            t.orders == s.orders && t.locks == s.locks - {env.orderId}
            && t.workers == s.workers[w := Finished(env, raised)]
            && t.queue == s.queue + if raised && env.retries < 5 then multiset{env.(retries := env.retries + 1)}
                                    else multiset{}
  {
  }

  /** A completion for an item the order does not have, or for an order that does not exist, is never acknowledged: the
      task ends with an error, and the message is queued again unless it was retried five times. */
  lemma UnknownItemRaises(s: State, w: nat, env: Envelope)
    requires env in s.queue && w !in s.workers && env.orderId !in s.locks
    requires env.orderId in s.orders
             ==> forall i :: 0 <= i < |s.orders[env.orderId].order| ==>
                   s.orders[env.orderId].order[i].id != env.completion.itemId
    ensures var t := Run(s, [Deliver(w, env), Acquire(w), ReadOrder(w, NoFault), WriteOrder(w, NoFault), Release(w)]);
            t.orders == s.orders && t.locks == s.locks && t.workers == s.workers[w := Finished(env, true)]
            && t.queue == (s.queue - multiset{env})
                          + if env.retries < 5 then multiset{env.(retries := env.retries + 1)} else multiset{}
  {
    RunFive(s, Deliver(w, env), Acquire(w), ReadOrder(w, NoFault), WriteOrder(w, NoFault), Release(w));
    if env.orderId in s.orders { UnknownIsNotFound(s.orders[env.orderId].order, env.completion.itemId); }
    UnknownItemStops(s, w, env);
    var s4 := Step(Step(Step(Step(s, Deliver(w, env)), Acquire(w)), ReadOrder(w, NoFault)), WriteOrder(w, NoFault));
    TaskReleases(s4, w, env, true);
    assert s.locks + {env.orderId} - {env.orderId} == s.locks;
    assert s4.workers[w := Finished(env, true)] == s.workers[w := Finished(env, true)];
  }

  lemma UnknownItemStops(s: State, w: nat, env: Envelope)
    requires env in s.queue && w !in s.workers && env.orderId !in s.locks
    requires env.orderId in s.orders ==> Find(s.orders[env.orderId].order, env.completion.itemId) == None
    ensures var t := Step(Step(Step(Step(s, Deliver(w, env)), Acquire(w)), ReadOrder(w, NoFault)),
                          WriteOrder(w, NoFault));
            t.orders == s.orders && t.queue == s.queue - multiset{env} && t.locks == s.locks + {env.orderId}
            && t.workers == s.workers[w := Releasing(env, true)]
  {
    var s3 := Step(Step(Step(s, Deliver(w, env)), Acquire(w)), ReadOrder(w, NoFault));
    if env.orderId in s.orders {
      TaskReadsOrder(s, w, env);
      assert PlanCompletion(s.orders[env.orderId].order, env.completion) == Raises;
      assert Step(s3, WriteOrder(w, NoFault)) == Become(s3, w, Releasing(env, true));
      assert s3.workers[w := Releasing(env, true)] == s.workers[w := Releasing(env, true)];
    } else {
      OrderMissing(s, w, env);
      assert Step(s3, WriteOrder(w, NoFault)) == s3;
    }
  }

  lemma OrderMissing(s: State, w: nat, env: Envelope)
    requires env in s.queue && w !in s.workers && env.orderId !in s.locks && env.orderId !in s.orders
    ensures var t := Step(Step(Step(s, Deliver(w, env)), Acquire(w)), ReadOrder(w, NoFault));
            t.orders == s.orders && t.queue == s.queue - multiset{env} && t.locks == s.locks + {env.orderId}
            && t.workers == s.workers[w := Releasing(env, true)]
  {
    var s1 := Step(s, Deliver(w, env));
    assert s1.workers == s.workers[w := Delivered(env)];
    var s2 := Step(s1, Acquire(w));
    assert s2.workers == s.workers[w := Locked(env)];
  }

  lemma {:induction false} UnknownIsNotFound(order: Order, itemId: string)
    requires forall i :: 0 <= i < |order| ==> order[i].id != itemId
    ensures Find(order, itemId) == None
  {
    if order != [] { UnknownIsNotFound(order[1..], itemId); }
  }

  lemma TaskReadsOrder(s: State, w: nat, env: Envelope)
    requires env in s.queue && w !in s.workers && env.orderId !in s.locks && env.orderId in s.orders
    ensures var t := Step(Step(Step(s, Deliver(w, env)), Acquire(w)), ReadOrder(w, NoFault));
            t.orders == s.orders && t.queue == s.queue - multiset{env} && t.locks == s.locks + {env.orderId}
            && t.workers == s.workers[w := HasOrder(env, s.orders[env.orderId])]
  {
    var s1 := Step(s, Deliver(w, env));
    assert s1.workers == s.workers[w := Delivered(env)];
    var s2 := Step(s1, Acquire(w));
    assert s2.workers == s.workers[w := Locked(env)];
  }

  lemma TaskWritesOrder(s: State, w: nat, env: Envelope, read: Versioned)
    requires w in s.workers && s.workers[w] == HasOrder(env, read)
    requires env.orderId in s.orders && s.orders[env.orderId] == read
             && PlanCompletion(read.order, env.completion).Actions?
    ensures var t := Step(s, WriteOrder(w, NoFault));
            var done := Complete(read.order, env.completion);
            env.orderId in t.orders && t.workers == s.workers[w := Releasing(env, done.None?)]
            && t.locks == s.locks && t.queue == s.queue
            && t.orders[env.orderId].order == (if done.Some? then done.value else read.order)
  {
  }

  /** A task whose read or update fails, on the way there or back, or whose update is refused because the order has
      changed, always ends with an error: it never takes an uncertain update for done. */
  lemma FailureRaises(s: State, w: nat, fault: Fault)
    requires w in s.workers && (s.workers[w].Locked? || s.workers[w].HasOrder?)
    ensures var k := s.workers[w];
            var t := Step(s, if k.Locked? then ReadOrder(w, fault) else WriteOrder(w, fault));
            fault != NoFault
            || (k.HasOrder? && Stale(s.orders, k.env.orderId, k.read)
                && PlanCompletion(k.read.order, k.env.completion) != Actions([]))
            ==> w in t.workers && t.workers[w] == Releasing(k.env, true)
  {
  }

  // ----- Undisturbed batches -----

  /** A batch that nothing disturbs moves every item of the order, when the transition is declared and every item is in
      its first state. */
  lemma UndisturbedBatchMoves(s: State, w: nat, orderId: string, move: BatchMove, handled: bool)
    requires w !in s.workers && orderId in s.orders && WellFormed(s.orders[orderId].order)
             && s.orders[orderId].order != []
    requires CanBatch(s.orders[orderId].order, move.from, move.to)
    ensures var t := Step(Step(Step(s, StartBatch(w, orderId, move)), ReadBatch(w, NoFault)),
                          WriteBatch(w, NoFault, handled));
            var before := s.orders[orderId].order;
            w in t.workers && t.workers[w] == BatchFinished(false) && orderId in t.orders
            && |t.orders[orderId].order| == |before|
            && forall i :: 0 <= i < |before| ==>
                 t.orders[orderId].order[i] == before[i].(state := [Portion(move.to, before[i].quantity)])
  {
    var s1 := Step(s, StartBatch(w, orderId, move));
    var s2 := Step(s1, ReadBatch(w, NoFault));
    DeclaredMoves(move.from);
    assert s2.workers[w] == BatchHasOrder(orderId, move, 0, s.orders[orderId]);
    BatchIsAllOrNothing(s.orders[orderId].order, move.from, move.to);
    AllInItems(s.orders[orderId].order, move.to);
  }

  /** A batch with nothing to do ends at once and changes nothing: the order has no items, or the two states are the
      same and the first was not given by its id. */
  lemma IdleBatchEnds(s: State, w: nat, orderId: string, move: BatchMove)
    requires w !in s.workers && orderId in s.orders
    requires s.orders[orderId].order == [] || (move.from == move.to && !move.byId)
    ensures Step(Step(s, StartBatch(w, orderId, move)), ReadBatch(w, NoFault)) == Become(s, w, BatchFinished(false))
  {
    assert s.workers[w := BatchReady(orderId, move, 0)][w := BatchFinished(false)]
        == s.workers[w := BatchFinished(false)];
  }

  lemma DeclaredMoves(key: StateKey)
    ensures key !in Declared(key)
  {
  }

  /** A batch of a task whose read or update fails is started over exactly when it was retried fewer than five times;
      a batch whose client retries repeats a refused update twice, or a lost one if the error is of its kind. */
  lemma FailedBatchIsRetriedExactlyWhen(s: State, w: nat, fault: Fault, handled: bool)
    requires w in s.workers && (s.workers[w].BatchReady? || s.workers[w].BatchHasOrder?)
    requires s.workers[w].BatchReady? ==> fault != NoFault
    requires s.workers[w].BatchHasOrder? ==> fault != NoFault || Refuses(s, s.workers[w])
    ensures var k := s.workers[w];
            var t := Step(s, if k.BatchReady? then ReadBatch(w, fault) else WriteBatch(w, fault, handled));
            var repeats := k.BatchHasOrder? && k.move.clientRetries && k.retries < 2 && (fault == NoFault || handled);
            w in t.workers
            && (t.workers[w] == BatchReady(k.orderId, k.move, k.retries + 1)
               <==> !k.move.clientRetries && k.retries < 5)
            && (t.workers[w].BatchHasOrder? <==> repeats)
            && (repeats ==> t.workers[w] == BatchHasOrder(k.orderId, k.move, k.retries + 1, k.read))
            && (!repeats && (k.move.clientRetries || k.retries >= 5) ==> t.workers[w] == BatchFinished(true))
  {
  }
}
