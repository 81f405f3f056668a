/** What holds in every run of the fulfilment protocol. */
module FulfilmentTheorems {
  import opened LineItemStates
  import opened FulfilmentProtocol
  import opened Wrappers

  // ----- Serialisability -----

  /** What a message does to an order when it runs alone. */
  function Effect(cause: Cause, order: Order): Option<Order> {
    match cause
    case Completing(c) => Complete(order, c)
    case Batching(move) => Batch(order, move.from, move.to)
    case Unrelated => Some(order)
  }

  /** Executing the committed messages one after another, each on the order the previous one left. */
  function Replay(orders: map<string, Versioned>, history: seq<Commit>): map<string, Versioned> {
    if history == [] then orders
    else
      var before := Replay(orders, history[..|history| - 1]);
      var last := history[|history| - 1];
      if last.orderId !in before then before
      else
        match Effect(last.cause, before[last.orderId].order)
        case None => before
        case Some(order) => before[last.orderId := Versioned(before[last.orderId].version + 1, order)]
  }

  /** The k-th write was computed from exactly the version it replaced, and was accepted. */
  ghost predicate ComputedFromReplaced(orders: map<string, Versioned>, history: seq<Commit>, k: nat)
    requires k < |history|
  {
    var before := Replay(orders, history[..k]);
    history[k].orderId in before && before[history[k].orderId] == history[k].read
    && Effect(history[k].cause, history[k].read.order).Some?
  }

  predicate Coherent(orders: map<string, Versioned>, orderId: string, read: Versioned) {
    orderId in orders && read.version <= orders[orderId].version
    && (read.version == orders[orderId].version ==> read == orders[orderId])
  }

  predicate SnapshotOk(orders: map<string, Versioned>, k: Worker) {
    (k.HasOrder? ==> Coherent(orders, k.env.orderId, k.read))
    && (k.BatchHasOrder? ==> Coherent(orders, k.orderId, k.read))
  }

  ghost predicate SnapshotsOk(s: State) {
    forall w :: w in s.workers ==> SnapshotOk(s.orders, s.workers[w])
  }

  ghost predicate Serial(start: map<string, Versioned>, s: State) {
    s.orders == Replay(start, s.history)
    && forall k :: 0 <= k < |s.history| ==> ComputedFromReplaced(start, s.history, k)
  }

  ghost predicate Commits(s: State, s': State) {
    (s'.orders == s.orders && s'.history == s.history)
    || (|s'.history| == |s.history| + 1 && s'.history[..|s.history|] == s.history
        && var c := s'.history[|s.history|];
           c.orderId in s.orders && s.orders[c.orderId] == c.read
           && Effect(c.cause, c.read.order).Some?
           && s'.orders == s.orders[c.orderId := Versioned(c.read.version + 1, Effect(c.cause, c.read.order).value)])
  }

  lemma WriteCommits(s: State, w: nat, env: Envelope, read: Versioned, fault: Fault)
    requires Coherent(s.orders, env.orderId, read)
    ensures Commits(s, StepWrite(s, w, env, read, fault))
  {
  }

  lemma TaskStepWritesNothing(s: State, e: Event)
    requires Actor(e).Some? && !e.WriteOrder? && !e.WriteBatch?
    ensures Step(s, e).orders == s.orders && Step(s, e).history == s.history
  {
  }

  lemma OtherStepCommits(s: State, e: Event)
    requires Actor(e).None?
    ensures Commits(s, Step(s, e))
  {
  }

  lemma WriteBatchCommits(s: State, w: nat, k: Worker, fault: Fault, handled: bool)
    requires k.BatchHasOrder? && Coherent(s.orders, k.orderId, k.read)
    ensures Commits(s, StepWriteBatch(s, w, k, fault, handled))
  {
  }

  /** A step either leaves the orders alone or commits one write that was computed from the current
      version of its order. */
  lemma StepCommits(s: State, e: Event)
    requires SnapshotsOk(s)
    ensures var s' := Step(s, e);
            (s'.orders == s.orders && s'.history == s.history)
            || (|s'.history| == |s.history| + 1 && s'.history[..|s.history|] == s.history
                && var c := s'.history[|s.history|];
                   c.orderId in s.orders && s.orders[c.orderId] == c.read
                   && Effect(c.cause, c.read.order).Some?
                   && s'.orders == s.orders[c.orderId := Versioned(c.read.version + 1,
                                                                   Effect(c.cause, c.read.order).value)])
  {
    match e
    case WriteOrder(w, fault) =>
      if w in s.workers && s.workers[w].HasOrder? {
        assert SnapshotOk(s.orders, s.workers[w]);
        WriteCommits(s, w, s.workers[w].env, s.workers[w].read, fault);
      }
    case WriteBatch(w, fault, handled) =>
      if w in s.workers && s.workers[w].BatchHasOrder? {
        assert SnapshotOk(s.orders, s.workers[w]);
        WriteBatchCommits(s, w, s.workers[w], fault, handled);
      }
    case _ => if Actor(e).Some? { TaskStepWritesNothing(s, e); } else { OtherStepCommits(s, e); }
  }

  /** The worker an event is about, if any. */
  function Actor(e: Event): Option<nat> {
    match e
    case Deliver(w, _) => Some(w)
    case Acquire(w) => Some(w)
    case ReadOrder(w, _) => Some(w)
    case WriteOrder(w, _) => Some(w)
    case Release(w) => Some(w)
    case Die(w) => Some(w)
    case StartBatch(w, _, _) => Some(w)
    case ReadBatch(w, _) => Some(w)
    case WriteBatch(w, _, _) => Some(w)
    case _ => None
  }

  function WorkerAt(s: State, w: nat): Option<Worker> {
    if w in s.workers then Some(s.workers[w]) else None
  }

  lemma WriteMovesOne(s: State, v: nat, env: Envelope, read: Versioned, fault: Fault, w: nat)
    requires v != w
    ensures WorkerAt(StepWrite(s, v, env, read, fault), w) == WorkerAt(s, w)
  {
  }

  lemma WriteBatchMovesOne(s: State, v: nat, k: Worker, fault: Fault, handled: bool, w: nat)
    requires k.BatchHasOrder? && v != w
    ensures WorkerAt(StepWriteBatch(s, v, k, fault, handled), w) == WorkerAt(s, w)
  {
  }

  lemma TaskStepMovesOne(s: State, e: Event, w: nat)
    requires Actor(e).Some? && Actor(e) != Some(w) && !e.WriteOrder? && !e.WriteBatch?
    ensures WorkerAt(Step(s, e), w) == WorkerAt(s, w)
  {
  }

  lemma StepOtherWorkers(s: State, e: Event, w: nat)
    requires Actor(e) != Some(w)
    ensures WorkerAt(Step(s, e), w) == WorkerAt(s, w)
  {
    match e
    case WriteOrder(v, fault) =>
      if v in s.workers && s.workers[v].HasOrder? {
        WriteMovesOne(s, v, s.workers[v].env, s.workers[v].read, fault, w);
      }
    case WriteBatch(v, fault, handled) =>
      if v in s.workers && s.workers[v].BatchHasOrder? {
        WriteBatchMovesOne(s, v, s.workers[v], fault, handled, w);
      }
    case _ => if Actor(e).Some? { TaskStepMovesOne(s, e, w); }
  }

  /** A snapshot is only ever taken of the current order, by a step that writes nothing; or the client keeps it to
      send the update again. */
  lemma StepOwnSnapshot(s: State, e: Event, w: nat)
    requires Actor(e) == Some(w)
    ensures var s' := Step(s, e);
            WorkerAt(s', w) == WorkerAt(s, w) || SendsAgain(s, s', w)
            || (w in s'.workers
                && (s'.workers[w].HasOrder? ==> s'.orders == s.orders && s'.workers[w].env.orderId in s.orders
                                                && s'.workers[w].read == s.orders[s'.workers[w].env.orderId])
                && (s'.workers[w].BatchHasOrder? ==> s'.orders == s.orders && s'.workers[w].orderId in s.orders
                                                     && s'.workers[w].read == s.orders[s'.workers[w].orderId]
                                                     && s'.workers[w].read.order != []))
  {
  }

  predicate SendsAgain(s: State, s': State, w: nat) {
    w in s.workers && s.workers[w].BatchHasOrder? && w in s'.workers
    && s'.workers[w] == s.workers[w].(retries := s.workers[w].retries + 1)
  }

  lemma StepKeepsSnapshots(s: State, e: Event)
    requires SnapshotsOk(s)
    ensures SnapshotsOk(Step(s, e))
  {
    var s' := Step(s, e);
    StepCommits(s, e);
    forall w | w in s'.workers ensures SnapshotOk(s'.orders, s'.workers[w]) {
      if Actor(e) == Some(w) {
        StepOwnSnapshot(s, e, w);
      } else {
        StepOtherWorkers(s, e, w);
      }
      if WorkerAt(s', w) == WorkerAt(s, w) || SendsAgain(s, s', w) {
        assert SnapshotOk(s.orders, s.workers[w]);
      }
    }
  }

  lemma StepKeepsSerial(start: map<string, Versioned>, s: State, e: Event)
    requires SnapshotsOk(s) && Serial(start, s)
    ensures Serial(start, Step(s, e))
  {
    var s' := Step(s, e);
    StepCommits(s, e);
    if s'.history != s.history {
      var n := |s.history|;
      assert s'.history[..|s'.history| - 1] == s.history;
      forall k | 0 <= k < |s'.history| ensures ComputedFromReplaced(start, s'.history, k) {
        if k < n {
          assert ComputedFromReplaced(start, s.history, k);
          assert s'.history[..k] == s.history[..k];
          assert s'.history[k] == s.history[k];
        } else {
          assert s'.history[..k] == s.history;
        }
      }
    }
  }

  lemma {:induction false} RunIsSerial(start: map<string, Versioned>, s: State, events: seq<Event>)
    requires SnapshotsOk(s) && Serial(start, s)
    ensures Serial(start, Run(s, events)) && SnapshotsOk(Run(s, events))
    decreases |events|
  {
    if events != [] {
      StepKeepsSnapshots(s, events[0]);
      StepKeepsSerial(start, s, events[0]);
      RunIsSerial(start, Step(s, events[0]), events[1..]);
    }
  }

  /** Serialisability, locks expiring or not: in every run the orders are those of a sequential
      execution of the committed messages, and each write was computed from exactly the version it
      replaced. */
  lemma Serialisable(s: State, events: seq<Event>)
    requires Init(s)
    ensures var t := Run(s, events);
            t.orders == Replay(s.orders, t.history)
            && forall k :: 0 <= k < |t.history| ==> ComputedFromReplaced(s.orders, t.history, k)
  {
    RunIsSerial(s.orders, s, events);
  }

  // ----- Line items -----

  lemma EffectKeepsItems(cause: Cause, order: Order)
    requires WellFormed(order) && Effect(cause, order).Some?
    requires order == [] ==> !cause.Batching?
    ensures var order' := Effect(cause, order).value;
            WellFormed(order') && |order'| == |order|
            && forall i :: 0 <= i < |order| ==> order'[i].id == order[i].id && order'[i].quantity == order[i].quantity
  {
    match cause
    case Completing(c) =>
      if i :| 0 <= i < |order| && order[i].id == c.itemId {
        CompleteEffect(order, c, i);
        var next := NextState(StateOf(order[i]), Target(c)).value;
        WellFormedUpdate(order, i, NextItem(order[i], c, next));
      } else {
        CompleteUnknown(order, c);
      }
    case Batching(move) =>
      BatchIsAllOrNothing(order, move.from, move.to);
      AllInItems(order, move.to);
    case Unrelated =>
  }

  /** The state change a write makes to one item. */
  lemma EffectOnItem(cause: Cause, order: Order, i: nat)
    requires WellFormed(order) && Effect(cause, order).Some? && i < |order|
    ensures var order' := Effect(cause, order).value;
            |order'| == |order| && order'[i].state != []
            && var before, after := StateOf(order[i]), StateOf(order'[i]);
               (match cause
                case Completing(c) =>
                  if order[i].id == c.itemId then NextState(before, Target(c)) == Some(after) else after == before
                case Batching(move) => before == move.from && move.to in Declared(move.from) && after == move.to
                case Unrelated => after == before)
  {
    match cause
    case Completing(c) =>
      if k :| 0 <= k < |order| && order[k].id == c.itemId {
        CompleteEffect(order, c, k);
      } else {
        CompleteUnknown(order, c);
      }
    case Batching(move) =>
      BatchIsAllOrNothing(order, move.from, move.to);
      AllInItems(order, move.to);
    case Unrelated =>
  }

  ghost predicate OrdersOk(s: State) {
    (forall o :: o in s.orders ==> WellFormed(s.orders[o].order))
    && forall w :: w in s.workers && s.workers[w].BatchHasOrder? ==> s.workers[w].read.order != []
  }

  ghost predicate Inv(s: State) {
    SnapshotsOk(s) && OrdersOk(s)
  }

  lemma StepEffect(s: State, e: Event)
    requires Inv(s)
    ensures var s' := Step(s, e);
            (s'.orders == s.orders && s'.history == s.history)
            || (|s'.history| == |s.history| + 1 && s'.history[..|s.history|] == s.history
                && var c := s'.history[|s.history|];
                   c.orderId in s.orders && s.orders[c.orderId] == c.read
                   && Effect(c.cause, c.read.order).Some? && (c.read.order == [] ==> !c.cause.Batching?)
                   && s'.orders == s.orders[c.orderId := Versioned(c.read.version + 1,
                                                                   Effect(c.cause, c.read.order).value)])
  {
    StepCommits(s, e);
  }

  lemma StepKeepsInv(s: State, e: Event)
    requires Inv(s)
    ensures Inv(Step(s, e))
  {
    StepKeepsSnapshots(s, e);
    StepEffect(s, e);
    var s' := Step(s, e);
    if s'.history != s.history {
      var c := s'.history[|s.history|];
      EffectKeepsItems(c.cause, c.read.order);
    }
    forall w | w in s'.workers && s'.workers[w].BatchHasOrder? ensures s'.workers[w].read.order != [] {
      if Actor(e) == Some(w) {
        StepOwnSnapshot(s, e, w);
      } else {
        StepOtherWorkers(s, e, w);
      }
    }
  }

  lemma {:induction false} RunKeepsInv(s: State, events: seq<Event>)
    requires Inv(s)
    ensures Inv(Run(s, events))
    decreases |events|
  {
    if events != [] {
      StepKeepsInv(s, events[0]);
      RunKeepsInv(Step(s, events[0]), events[1..]);
    }
  }

  /** The same items with the same ids and quantities, each whole in one state. */
  ghost predicate SameItems(before: State, after: State) {
    before.orders.Keys == after.orders.Keys
    && forall o :: o in before.orders ==>
         var x, y := before.orders[o].order, after.orders[o].order;
         WellFormed(y) && |x| == |y|
         && forall i :: 0 <= i < |x| ==> y[i].id == x[i].id && y[i].quantity == x[i].quantity
                                         && Total(y[i].state) == x[i].quantity
  }

  lemma WholeTotal(item: LineItem)
    requires Whole(item)
    ensures Total(item.state) == item.quantity
  {
    assert item.state[1..] == [];
  }

  lemma {:induction false} RunKeepsItems(s: State, events: seq<Event>)
    requires Inv(s)
    ensures SameItems(s, Run(s, events))
    decreases |events|
  {
    if events == [] {
      forall o, i | o in s.orders && 0 <= i < |s.orders[o].order|
        ensures Total(s.orders[o].order[i].state) == s.orders[o].order[i].quantity {
        WholeTotal(s.orders[o].order[i]);
      }
    } else {
      var s' := Step(s, events[0]);
      StepKeepsInv(s, events[0]);
      StepEffect(s, events[0]);
      if s'.history != s.history {
        var c := s'.history[|s.history|];
        EffectKeepsItems(c.cause, c.read.order);
      }
      RunKeepsItems(s', events[1..]);
    }
  }

  /** Quantity is conserved, and reading the first state of an item always gives its whole state:
      in every reachable order each line item is in one state with the quantity it was bought with. */
  lemma ItemsStayWhole(s: State, events: seq<Event>)
    requires Init(s)
    ensures SameItems(s, Run(s, events))
  {
    RunKeepsItems(s, events);
  }

  // ----- Sending an update again -----

  /** The order has changed since it was read. */
  predicate Stale(orders: map<string, Versioned>, orderId: string, read: Versioned) {
    orderId in orders && read.version < orders[orderId].version
  }

  lemma {:induction false} StaleForever(s: State, events: seq<Event>, orderId: string, read: Versioned)
    requires Inv(s) && Stale(s.orders, orderId, read)
    ensures Stale(Run(s, events).orders, orderId, read)
    decreases |events|
  {
    if events != [] {
      StepCommits(s, events[0]);
      StepKeepsInv(s, events[0]);
      StaleForever(Step(s, events[0]), events[1..], orderId, read);
    }
  }

  /** The service does not accept the update: its order is stale, or one of its transitions is not declared. */
  predicate Refuses(s: State, k: Worker)
    requires k.BatchHasOrder?
  {
    Stale(s.orders, k.orderId, k.read) || Batch(k.read.order, k.move.from, k.move.to).None?
  }

  predicate SameUpdate(k: Worker, k': Worker)
    requires k.BatchHasOrder? && k'.BatchHasOrder?
  {
    k.orderId == k'.orderId && k.move == k'.move && k.read == k'.read
  }

  lemma RefusedWriteChangesNothing(s: State, w: nat, k: Worker, fault: Fault, handled: bool)
    requires k.BatchHasOrder? && Refuses(s, k)
    ensures StepWriteBatch(s, w, k, fault, handled).orders == s.orders
  {
  }

  lemma ReachedOnceRefuses(s: State, w: nat, k: Worker, fault: Fault, handled: bool)
    requires k.BatchHasOrder? && SnapshotOk(s.orders, k) && fault != RequestLost
    ensures Refuses(StepWriteBatch(s, w, k, fault, handled), k)
  {
  }

  /** The client's own repetition helps against requests that were lost on their way, and against nothing else:
      once an update has reached the service, accepted or not, sending it again under the same version changes
      nothing, whatever happens in between. */
  lemma RepeatedUpdateChangesNothing(start: State, before: seq<Event>, w: nat, fault: Fault, handled: bool,
                                     after: seq<Event>, fault': Fault, handled': bool)
    requires Init(start) && fault != RequestLost
    ensures var s := Run(start, before);
            w in s.workers && s.workers[w].BatchHasOrder?
            ==> var t := Run(Step(s, WriteBatch(w, fault, handled)), after);
                w in t.workers && t.workers[w].BatchHasOrder? && SameUpdate(t.workers[w], s.workers[w])
                ==> Step(t, WriteBatch(w, fault', handled')).orders == t.orders
  {
    var s := Run(start, before);
    RunKeepsInv(start, before);
    if w in s.workers && s.workers[w].BatchHasOrder? {
      var k, s' := s.workers[w], Step(s, WriteBatch(w, fault, handled));
      assert SnapshotOk(s.orders, k);
      ReachedOnceRefuses(s, w, k, fault, handled);
      StepKeepsInv(s, WriteBatch(w, fault, handled));
      if Stale(s'.orders, k.orderId, k.read) {
        StaleForever(s', after, k.orderId, k.read);
      }
      var t := Run(s', after);
      if w in t.workers && t.workers[w].BatchHasOrder? && SameUpdate(t.workers[w], k) {
        RefusedWriteChangesNothing(t, w, t.workers[w], fault', handled');
      }
    }
  }

  // ----- Success is permanent -----

  ghost predicate ItemIn(s: State, orderId: string, i: nat, key: StateKey) {
    orderId in s.orders && i < |s.orders[orderId].order| && s.orders[orderId].order[i].state != []
    && StateOf(s.orders[orderId].order[i]) == key
  }

  lemma {:induction false} SuccessStays(s: State, events: seq<Event>, orderId: string, i: nat)
    requires Inv(s) && ItemIn(s, orderId, i, Success)
    ensures ItemIn(Run(s, events), orderId, i, Success)
    decreases |events|
  {
    if events != [] {
      var s' := Step(s, events[0]);
      StepKeepsInv(s, events[0]);
      StepEffect(s, events[0]);
      if s'.history != s.history {
        var c := s'.history[|s.history|];
        if c.orderId == orderId {
          EffectOnItem(c.cause, c.read.order, i);
        }
      }
      SuccessStays(s', events[1..], orderId, i);
    }
  }

  /** From the moment an item is fulfilled, no run takes it out of Success: not completions that
      report failure, not batch moves, duplicates, retries or stale writes. */
  lemma SuccessIsPermanent(s: State, before: seq<Event>, after: seq<Event>, orderId: string, i: nat)
    requires Init(s) && ItemIn(Run(s, before), orderId, i, Success)
    ensures ItemIn(Run(Run(s, before), after), orderId, i, Success)
  {
    RunKeepsInv(s, before);
    SuccessStays(Run(s, before), after, orderId, i);
  }

  // ----- The outcome depends on the set of committed completions only -----

  ghost predicate Reported(history: seq<Commit>, orderId: string, itemId: string, isFulfilled: bool) {
    exists k :: 0 <= k < |history| && Reports(history[k], orderId, itemId, isFulfilled)
  }

  predicate Reports(c: Commit, orderId: string, itemId: string, isFulfilled: bool) {
    c.orderId == orderId && c.cause.Completing? && c.cause.completion.itemId == itemId
    && c.cause.completion.isFulfilled == isFulfilled
  }

  /** Success if a committed completion reported success; otherwise Failure if one reported failure;
      otherwise the item has not been completed. */
  ghost predicate Outcome(s: State, orderId: string, i: nat) {
    orderId in s.orders && i < |s.orders[orderId].order| && s.orders[orderId].order[i].state != []
    && var item := s.orders[orderId].order[i];
       if Reported(s.history, orderId, item.id, true) then StateOf(item) == Success
       else if Reported(s.history, orderId, item.id, false) then StateOf(item) == Failure
       else StateOf(item) in {Initial, Pending, StateKey.Processing}
  }

  lemma ReportedAppend(history: seq<Commit>, c: Commit, orderId: string, itemId: string, isFulfilled: bool)
    ensures Reported(history + [c], orderId, itemId, isFulfilled)
            <==> Reported(history, orderId, itemId, isFulfilled) || Reports(c, orderId, itemId, isFulfilled)
  {
    var h := history + [c];
    if Reported(history, orderId, itemId, isFulfilled) {
      var k :| 0 <= k < |history| && Reports(history[k], orderId, itemId, isFulfilled);
      assert Reports(h[k], orderId, itemId, isFulfilled);
    }
    if Reports(c, orderId, itemId, isFulfilled) {
      assert Reports(h[|history|], orderId, itemId, isFulfilled);
    }
  }

  /** How one item and its reports move together. */
  lemma CommitOutcome(before: StateKey, after: StateKey, success: bool, failure: bool, reportsSuccess: bool,
                      reportsFailure: bool)
    requires if success then before == Success else if failure then before == Failure
             else before in {Initial, Pending, StateKey.Processing}
    requires !(reportsSuccess && reportsFailure)
    requires reportsSuccess ==> NextState(before, Success) == Some(after)
    requires reportsFailure ==> NextState(before, Failure) == Some(after)
    requires !reportsSuccess && !reportsFailure
             ==> after == before || (before in {Initial, Pending} && after in Declared(before))
    ensures if success || reportsSuccess then after == Success
            else if failure || reportsFailure then after == Failure
            else after in {Initial, Pending, StateKey.Processing}
  {
  }

  /** The batch moves of an order were all made before completion: from Initial or from Pending. */
  ghost predicate EarlyBatches(history: seq<Commit>, orderId: string) {
    forall k :: 0 <= k < |history| && history[k].orderId == orderId && history[k].cause.Batching?
      ==> history[k].cause.move.from in {Initial, Pending}
  }

  lemma StepKeepsOutcome(s: State, e: Event, orderId: string, i: nat)
    requires Inv(s) && Outcome(s, orderId, i) && EarlyBatches(Step(s, e).history, orderId)
    ensures Outcome(Step(s, e), orderId, i)
  {
    var s' := Step(s, e);
    StepEffect(s, e);
    if s'.history != s.history {
      var c := s'.history[|s.history|];
      var item := s.orders[orderId].order[i];
      assert s'.history == s.history + [c];
      ReportedAppend(s.history, c, orderId, item.id, true);
      ReportedAppend(s.history, c, orderId, item.id, false);
      if c.orderId == orderId {
        EffectKeepsItems(c.cause, c.read.order);
        EffectOnItem(c.cause, c.read.order, i);
        CommitOutcome(StateOf(item), StateOf(s'.orders[orderId].order[i]),
                      Reported(s.history, orderId, item.id, true), Reported(s.history, orderId, item.id, false),
                      Reports(c, orderId, item.id, true), Reports(c, orderId, item.id, false));
      }
    }
  }

  lemma {:induction false} HistoryGrows(s: State, events: seq<Event>)
    requires Inv(s)
    ensures s.history <= Run(s, events).history
    decreases |events|
  {
    if events != [] {
      StepKeepsInv(s, events[0]);
      StepEffect(s, events[0]);
      HistoryGrows(Step(s, events[0]), events[1..]);
    }
  }

  lemma {:induction false} RunKeepsOutcome(s: State, events: seq<Event>, orderId: string, i: nat)
    requires Inv(s) && Outcome(s, orderId, i) && EarlyBatches(Run(s, events).history, orderId)
    ensures Outcome(Run(s, events), orderId, i)
    decreases |events|
  {
    if events != [] {
      var s' := Step(s, events[0]);
      StepKeepsInv(s, events[0]);
      HistoryGrows(s', events[1..]);
      assert forall k :: 0 <= k < |s'.history| ==> s'.history[k] == Run(s, events).history[k];
      StepKeepsOutcome(s, events[0], orderId, i);
      RunKeepsOutcome(s', events[1..], orderId, i);
    }
  }

  /** Order-independence: an item that starts uncompleted ends in Success if one of the committed
      completions for it reported success and in Failure if they all reported failure, whatever the
      order, duplication and interleaving of completions, early batch moves, conflicts and retries. */
  lemma OutcomeIsOrderIndependent(s: State, events: seq<Event>, orderId: string, i: nat)
    requires Init(s) && orderId in s.orders && i < |s.orders[orderId].order|
    requires StateOf(s.orders[orderId].order[i]) in {Initial, Pending, StateKey.Processing}
    requires EarlyBatches(Run(s, events).history, orderId)
    ensures Outcome(Run(s, events), orderId, i)
  {
    RunKeepsOutcome(s, events, orderId, i);
  }

  ghost predicate DeclaredBatches(history: seq<Commit>) {
    forall k :: 0 <= k < |history| && history[k].cause.Batching?
      ==> history[k].cause.move.to in Declared(history[k].cause.move.from)
  }

  lemma StepKeepsDeclaredBatches(s: State, e: Event)
    requires Inv(s) && DeclaredBatches(s.history)
    ensures DeclaredBatches(Step(s, e).history)
  {
    StepEffect(s, e);
    var s' := Step(s, e);
    if s'.history != s.history {
      var c := s'.history[|s.history|];
      if c.cause.Batching? { EffectOnItem(c.cause, c.read.order, 0); }
      forall k | 0 <= k < |s'.history| && s'.history[k].cause.Batching?
        ensures s'.history[k].cause.move.to in Declared(s'.history[k].cause.move.from) {
        assert k < |s.history| ==> s'.history[k] == s'.history[..|s.history|][k];
      }
    }
  }

  lemma {:induction false} RunKeepsDeclaredBatches(s: State, events: seq<Event>)
    requires Inv(s) && DeclaredBatches(s.history)
    ensures DeclaredBatches(Run(s, events).history)
    decreases |events|
  {
    if events != [] {
      StepKeepsDeclaredBatches(s, events[0]);
      StepKeepsInv(s, events[0]);
      RunKeepsDeclaredBatches(Step(s, events[0]), events[1..]);
    }
  }

  /** The batches the repository sends are of this kind: the order-placed task moves to Processing, from whatever
      state its message names, and only Pending items can be moved there; the view for mobile orders moves the
      items of a new order, which are in Initial. */
  lemma SentBatchesAreEarly(s: State, events: seq<Event>, orderId: string)
    requires Init(s)
    ensures SentBatches(Run(s, events).history, orderId) ==> EarlyBatches(Run(s, events).history, orderId)
  {
    RunKeepsDeclaredBatches(s, events);
  }

  ghost predicate SentBatches(history: seq<Commit>, orderId: string) {
    forall k :: 0 <= k < |history| && history[k].orderId == orderId && history[k].cause.Batching?
      ==> history[k].cause.move.to == StateKey.Processing || history[k].cause.move.from == Initial
  }

  /** Which batch moves those may be: in every reachable state where the outcome is what the completions
      say, a committed batch leaves it so exactly when it moves from Initial or from Pending. */
  lemma BatchKeepsOutcomeExactlyWhen(start: State, events: seq<Event>, e: Event, orderId: string, i: nat)
    requires Init(start)
    ensures var s, s' := Run(start, events), Step(Run(start, events), e);
            Outcome(s, orderId, i) && BatchCommitted(s, s', orderId)
            ==> (Outcome(s', orderId, i) <==> s'.history[|s.history|].cause.move.from in {Initial, Pending})
  {
    var s := Run(start, events);
    RunKeepsInv(start, events);
    if Outcome(s, orderId, i) && BatchCommitted(s, Step(s, e), orderId) {
      BatchStepOutcome(s, e, orderId, i);
    }
  }

  /** The step committed a batch for the order. */
  predicate BatchCommitted(s: State, s': State, orderId: string) {
    |s'.history| == |s.history| + 1
    && s'.history[|s.history|].orderId == orderId && s'.history[|s.history|].cause.Batching?
  }

  lemma BatchStepOutcome(s: State, e: Event, orderId: string, i: nat)
    requires Inv(s) && Outcome(s, orderId, i)
    ensures var s' := Step(s, e);
            BatchCommitted(s, s', orderId)
            ==> (Outcome(s', orderId, i) <==> s'.history[|s.history|].cause.move.from in {Initial, Pending})
  {
    var s' := Step(s, e);
    StepEffect(s, e);
    if BatchCommitted(s, s', orderId) {
      var c := s'.history[|s.history|];
      var item := s.orders[orderId].order[i];
      assert s'.history == s.history + [c];
      ReportedAppend(s.history, c, orderId, item.id, true);
      ReportedAppend(s.history, c, orderId, item.id, false);
      EffectKeepsItems(c.cause, c.read.order);
      EffectOnItem(c.cause, c.read.order, i);
    }
  }

  /** The condition is needed: from every start state with an order that is being processed, three
      steps of one batch take its items to Success without any report. */
  lemma LateBatchForgesOutcome(s: State, orderId: string, w: nat, i: nat)
    requires Init(s) && orderId in s.orders && i < |s.orders[orderId].order|
    requires CanBatch(s.orders[orderId].order, StateKey.Processing, Success)
    ensures var move := BatchMove(StateKey.Processing, Success, false, false);
            var es := [StartBatch(w, orderId, move), ReadBatch(w, NoFault), WriteBatch(w, NoFault, true)];
            !Outcome(Run(s, es), orderId, i)
  {
    var move := BatchMove(StateKey.Processing, Success, false, false);
    var es := [StartBatch(w, orderId, move), ReadBatch(w, NoFault), WriteBatch(w, NoFault, true)];
    var read := s.orders[orderId];
    var s1 := Step(s, es[0]);
    var s2 := Step(s1, es[1]);
    assert s2.workers[w] == BatchHasOrder(orderId, move, 0, read);
    var s3 := Step(s2, es[2]);
    assert es[1..][1..][1..] == [];
    assert Run(s2, es[1..][1..]) == s3;
    assert Run(s1, es[1..]) == s3;
    BatchIsAllOrNothing(read.order, StateKey.Processing, Success);
    AllInItems(read.order, Success);
    assert s3.history == [Commit(orderId, Batching(move), read)];
  }

  /** Completion by completion, from Processing: the state after any list of completions of one item,
      and every transition sent on the way is a declared one and is accepted. */
  function After(from: StateKey, reports: seq<bool>): StateKey
    decreases |reports|
  {
    if reports == [] then from
    else
      var target := if reports[0] then Success else Failure;
      match NextState(from, target)
      case None => After(from, reports[1..])
      case Some(next) => After(next, reports[1..])
  }

  predicate AllAccepted(from: StateKey, reports: seq<bool>)
    decreases |reports|
  {
    reports == []
    || var next := NextState(from, if reports[0] then Success else Failure);
       next.Some? && (next.value == from || next.value in Declared(from)) && AllAccepted(next.value, reports[1..])
  }

  lemma {:induction false} CompletionsFromProcessing(from: StateKey, reports: seq<bool>)
    requires from != Initial && from != Pending
    ensures AllAccepted(from, reports)
    ensures After(from, reports) == if from == Success || true in reports then Success
                                    else if reports != [] then Failure else from
    decreases |reports|
  {
    if reports != [] {
      var next := NextState(from, if reports[0] then Success else Failure).value;
      CompletionsFromProcessing(next, reports[1..]);
      assert reports == [reports[0]] + reports[1..];
    }
  }

  // ----- What an acknowledged completion guarantees -----

  /** `now` is the outcome `reached`, or better: a fulfilled item stays fulfilled, a failed one stays
      failed unless it is fulfilled. */
  predicate Settled(reached: StateKey, now: StateKey) {
    (reached == Success ==> now == Success) && (reached == Failure ==> now == Failure || now == Success)
  }

  ghost predicate Holds(orders: map<string, Versioned>, orderId: string, i: nat, reached: StateKey) {
    orderId in orders && i < |orders[orderId].order| && orders[orderId].order[i].state != []
    && Settled(reached, StateOf(orders[orderId].order[i]))
  }

  /** What a worker has seen or been told still holds of the orders. */
  ghost predicate StillHolds(orders: map<string, Versioned>, k: Worker) {
    (k.HasOrder? ==>
       WellFormed(k.read.order)
       && forall i :: 0 <= i < |k.read.order| ==>
            Holds(orders, k.env.orderId, i, StateOf(k.read.order[i]))
            && orders[k.env.orderId].order[i].id == k.read.order[i].id)
    && ((k.Releasing? || k.Finished?) && !k.raised ==>
          exists i: nat :: Acknowledged(orders, k.env, i))
  }

  ghost predicate Acknowledged(orders: map<string, Versioned>, env: Envelope, i: nat) {
    Holds(orders, env.orderId, i, Target(env.completion)) && orders[env.orderId].order[i].id == env.completion.itemId
  }

  predicate About(k: Worker, orderId: string) {
    (k.HasOrder? || k.Releasing? || k.Finished?) && k.env.orderId == orderId
  }

  ghost predicate AllStillHold(s: State, orderId: string) {
    forall w :: w in s.workers && About(s.workers[w], orderId) ==> StillHolds(s.orders, s.workers[w])
  }

  /** No batch has reopened failed items of the order. */
  ghost predicate NoReopening(history: seq<Commit>, orderId: string) {
    forall k :: 0 <= k < |history| && history[k].orderId == orderId && history[k].cause.Batching?
      ==> !(history[k].cause.move.from == Failure && history[k].cause.move.to == Pending)
  }

  lemma StepKeepsHolds(s: State, e: Event, orderId: string, i: nat, reached: StateKey)
    requires Inv(s) && Holds(s.orders, orderId, i, reached) && NoReopening(Step(s, e).history, orderId)
    ensures Holds(Step(s, e).orders, orderId, i, reached)
    ensures Step(s, e).orders[orderId].order[i].id == s.orders[orderId].order[i].id
  {
    var s' := Step(s, e);
    StepEffect(s, e);
    if s'.history != s.history {
      var c := s'.history[|s.history|];
      EffectKeepsItems(c.cause, c.read.order);
      if c.orderId == orderId {
        EffectOnItem(c.cause, c.read.order, i);
      }
    }
  }

  lemma StepKeepsStillHolds(s: State, e: Event, k: Worker)
    requires Inv(s) && StillHolds(s.orders, k)
    requires k.HasOrder? || k.Releasing? || k.Finished? ==> NoReopening(Step(s, e).history, k.env.orderId)
    ensures StillHolds(Step(s, e).orders, k)
  {
    var s' := Step(s, e);
    if k.HasOrder? {
      forall i | 0 <= i < |k.read.order|
        ensures Holds(s'.orders, k.env.orderId, i, StateOf(k.read.order[i]))
                && s'.orders[k.env.orderId].order[i].id == k.read.order[i].id {
        StepKeepsHolds(s, e, k.env.orderId, i, StateOf(k.read.order[i]));
      }
    }
    if (k.Releasing? || k.Finished?) && !k.raised {
      var i: nat :| Acknowledged(s.orders, k.env, i);
      StepKeepsHolds(s, e, k.env.orderId, i, Target(k.env.completion));
      assert Acknowledged(s'.orders, k.env, i);
    }
  }

  lemma FreshSnapshotHolds(s: State, env: Envelope)
    requires Inv(s) && env.orderId in s.orders
    ensures StillHolds(s.orders, HasOrder(env, s.orders[env.orderId]))
  {
  }

  /** The write step ends without raising only when the outcome has been reached. */
  lemma WriteAcknowledges(s: State, w: nat, env: Envelope, read: Versioned, fault: Fault)
    requires Inv(s) && Coherent(s.orders, env.orderId, read) && StillHolds(s.orders, HasOrder(env, read))
    ensures var s' := StepWrite(s, w, env, read, fault);
            w in s'.workers && StillHolds(s'.orders, s'.workers[w])
  {
    var s' := StepWrite(s, w, env, read, fault);
    if !s'.workers[w].raised {
      FindNone(read.order, env.completion.itemId);
      var i: nat :| i < |read.order| && read.order[i].id == env.completion.itemId;
      FindIndex(read.order, i);
      assert Holds(s.orders, env.orderId, i, StateOf(read.order[i]));
      if s'.orders == s.orders {
        assert Acknowledged(s'.orders, env, i);
      } else {
        CompleteEffect(read.order, env.completion, i);
        assert Acknowledged(s'.orders, env, i);
      }
    }
  }

  lemma ReadStillHolds(s: State, w: nat, fault: Fault)
    requires Inv(s) && w in s.workers && s.workers[w].Locked?
    ensures var s' := Step(s, ReadOrder(w, fault)); w in s'.workers && StillHolds(s'.orders, s'.workers[w])
  {
    if s.workers[w].env.orderId in s.orders {
      FreshSnapshotHolds(s, s.workers[w].env);
    }
  }

  lemma ReleaseStillHolds(s: State, w: nat)
    requires w in s.workers && s.workers[w].Releasing? && StillHolds(s.orders, s.workers[w])
    ensures var s' := Step(s, Release(w)); w in s'.workers && StillHolds(s'.orders, s'.workers[w])
  {
    var k := s.workers[w];
    assert Step(s, Release(w)).workers[w] == Finished(k.env, k.raised) && Step(s, Release(w)).orders == s.orders;
  }

  /** Every other step leaves its worker where it was, or where nothing is claimed. */
  lemma OtherStepClaimsNothing(s: State, e: Event, w: nat)
    requires Actor(e) == Some(w) && !e.ReadOrder? && !e.WriteOrder? && !e.Release?
    ensures var k := WorkerAt(Step(s, e), w);
            k == WorkerAt(s, w) || (k.Some? && !k.value.HasOrder? && !k.value.Releasing? && !k.value.Finished?)
  {
  }

  lemma StepOwnStillHolds(s: State, e: Event, w: nat, orderId: string)
    requires Inv(s) && AllStillHold(s, orderId) && Actor(e) == Some(w) && NoReopening(Step(s, e).history, orderId)
    ensures var k := WorkerAt(Step(s, e), w);
            k.Some? && About(k.value, orderId) ==> StillHolds(Step(s, e).orders, k.value)
  {
    var k, k' := WorkerAt(s, w), WorkerAt(Step(s, e), w);
    if k' == k {
      if k.Some? && About(k.value, orderId) { StepKeepsStillHolds(s, e, k.value); }
    } else {
      match e
      case ReadOrder(_, fault) => ReadStillHolds(s, w, fault);
      case WriteOrder(_, fault) =>
        WriteEndsReleasing(s, w, k.value.env, k.value.read, fault);
        if About(k'.value, orderId) { WriteAcknowledges(s, w, k.value.env, k.value.read, fault); }
      case Release(_) => if About(k'.value, orderId) { ReleaseStillHolds(s, w); }
      case _ => OtherStepClaimsNothing(s, e, w);
    }
  }

  lemma StepKeepsAllHolding(s: State, e: Event, orderId: string)
    requires Inv(s) && AllStillHold(s, orderId) && NoReopening(Step(s, e).history, orderId)
    ensures AllStillHold(Step(s, e), orderId)
  {
    var s' := Step(s, e);
    forall w | w in s'.workers && About(s'.workers[w], orderId) ensures StillHolds(s'.orders, s'.workers[w]) {
      if Actor(e) == Some(w) {
        StepOwnStillHolds(s, e, w, orderId);
        assert WorkerAt(s', w) == Some(s'.workers[w]);
      } else {
        StepOtherWorkers(s, e, w);
        StepKeepsStillHolds(s, e, s.workers[w]);
      }
    }
  }

  lemma {:induction false} RunKeepsStillHolds(s: State, events: seq<Event>, orderId: string)
    requires Inv(s) && AllStillHold(s, orderId) && NoReopening(Run(s, events).history, orderId)
    ensures AllStillHold(Run(s, events), orderId)
    decreases |events|
  {
    if events != [] {
      var s' := Step(s, events[0]);
      StepKeepsInv(s, events[0]);
      HistoryGrows(s', events[1..]);
      assert forall k :: 0 <= k < |s'.history| ==> s'.history[k] == Run(s, events).history[k];
      StepKeepsAllHolding(s, events[0], orderId);
      RunKeepsStillHolds(s', events[1..], orderId);
    }
  }

  /** No acknowledged completion is lost, even one that found nothing to do on a stale snapshot: once
      a task ends without raising, its item exists and is in Success if it reported success,
      and in Failure or Success if it reported failure, in this state of the run and so in all later
      ones, as long as no batch reopens failed items. */
  lemma AcknowledgedCompletionsStick(s: State, events: seq<Event>, w: nat)
    requires Init(s)
    requires w in Run(s, events).workers && Run(s, events).workers[w].Finished? && !Run(s, events).workers[w].raised
    requires NoReopening(Run(s, events).history, Run(s, events).workers[w].env.orderId)
    ensures exists i: nat :: Acknowledged(Run(s, events).orders, Run(s, events).workers[w].env, i)
  {
    RunKeepsStillHolds(s, events, Run(s, events).workers[w].env.orderId);
  }

  /** That is the only way to lose one: a committed batch undoes a failure that is in place exactly when
      it moves from Failure to Pending. */
  lemma BatchUndoesFailureExactlyWhen(start: State, events: seq<Event>, e: Event, orderId: string, i: nat)
    requires Init(start)
    ensures var s, s' := Run(start, events), Step(Run(start, events), e);
            Holds(s.orders, orderId, i, Failure) && BatchCommitted(s, s', orderId)
            ==> var move := s'.history[|s.history|].cause.move;
                Holds(s'.orders, orderId, i, Failure) <==> !(move.from == Failure && move.to == Pending)
  {
    RunKeepsInv(start, events);
    if Holds(Run(start, events).orders, orderId, i, Failure) {
      BatchStepFailure(Run(start, events), e, orderId, i);
    }
  }

  lemma BatchStepFailure(s: State, e: Event, orderId: string, i: nat)
    requires Inv(s) && Holds(s.orders, orderId, i, Failure)
    ensures var s' := Step(s, e);
            BatchCommitted(s, s', orderId)
            ==> var move := s'.history[|s.history|].cause.move;
                Holds(s'.orders, orderId, i, Failure) <==> !(move.from == Failure && move.to == Pending)
  {
    var s' := Step(s, e);
    StepEffect(s, e);
    if BatchCommitted(s, s', orderId) {
      var c := s'.history[|s.history|];
      EffectKeepsItems(c.cause, c.read.order);
      EffectOnItem(c.cause, c.read.order, i);
    }
  }

  // ----- Mutual exclusion -----

  predicate Inside(k: Worker, orderId: string) {
    (k.Locked? || k.HasOrder? || k.Releasing?) && k.env.orderId == orderId
  }

  predicate InsideAt(s: State, w: nat, orderId: string) {
    w in s.workers && Inside(s.workers[w], orderId)
  }

  /** At most one worker is between acquire and release, and then the lock is set. */
  ghost predicate Exclusive(s: State, orderId: string) {
    (forall w: nat :: InsideAt(s, w, orderId) ==> orderId in s.locks)
    && forall w: nat, v: nat :: InsideAt(s, w, orderId) && InsideAt(s, v, orderId) ==> w == v
  }

  /** A set lock belongs to a worker that will release it. */
  ghost predicate LockOwned(s: State, orderId: string) {
    orderId in s.locks ==> exists w: nat :: InsideAt(s, w, orderId)
  }

  /** Only acquiring and releasing touch the lock of an order; other steps leave the worker they
      are about where it is. */
  lemma ReadStaysInside(s: State, w: nat, fault: Fault, orderId: string)
    ensures var s' := Step(s, ReadOrder(w, fault));
            s'.locks == s.locks && (InsideAt(s', w, orderId) <==> InsideAt(s, w, orderId))
  {
  }

  lemma BatchStaysOutside(s: State, e: Event, w: nat, orderId: string)
    requires Actor(e) == Some(w) && (e.Deliver? || e.StartBatch? || e.ReadBatch?)
    ensures Step(s, e).locks == s.locks && (InsideAt(Step(s, e), w, orderId) <==> InsideAt(s, w, orderId))
  {
  }

  lemma BatchWriteStaysOutside(s: State, w: nat, k: Worker, fault: Fault, handled: bool, orderId: string)
    requires k.BatchHasOrder?
    ensures var s' := StepWriteBatch(s, w, k, fault, handled); s'.locks == s.locks && !InsideAt(s', w, orderId)
  {
  }

  lemma StepOwnInside(s: State, e: Event, orderId: string, w: nat)
    requires Actor(e) == Some(w) && !e.Acquire? && !e.Release? && !e.Die?
    ensures orderId in Step(s, e).locks <==> orderId in s.locks
    ensures InsideAt(Step(s, e), w, orderId) <==> InsideAt(s, w, orderId)
  {
    match e
    case ReadOrder(_, fault) => ReadStaysInside(s, w, fault, orderId);
    case WriteOrder(_, fault) =>
      if w in s.workers && s.workers[w].HasOrder? {
        WriteEndsReleasing(s, w, s.workers[w].env, s.workers[w].read, fault);
      }
    case WriteBatch(_, fault, handled) =>
      if w in s.workers && s.workers[w].BatchHasOrder? {
        BatchWriteStaysOutside(s, w, s.workers[w], fault, handled, orderId);
      }
    case _ => BatchStaysOutside(s, e, w, orderId);
  }

  lemma WriteEndsReleasing(s: State, w: nat, env: Envelope, read: Versioned, fault: Fault)
    ensures var s' := StepWrite(s, w, env, read, fault);
            s'.locks == s.locks && w in s'.workers && s'.workers[w].Releasing? && s'.workers[w].env == env
  {
  }

  lemma StepLocks(s: State, e: Event, orderId: string, w: nat)
    requires Actor(e) == Some(w) && (e.Acquire? || e.Release? || e.Die?)
    ensures var s' := Step(s, e);
            var before, after := InsideAt(s, w, orderId), InsideAt(s', w, orderId);
            || ((orderId in s'.locks <==> orderId in s.locks) && (after <==> before))
            || (e.Acquire? && orderId !in s.locks && orderId in s'.locks && !before && after)
            || (e.Release? && before && !after && orderId !in s'.locks)
            || (e.Die? && before && !after && (orderId in s'.locks <==> orderId in s.locks))
  {
  }

  lemma StepNoActor(s: State, e: Event, orderId: string)
    requires Actor(e) == None && e != Expire(orderId)
    ensures orderId in Step(s, e).locks <==> orderId in s.locks
  {
  }

  lemma StepKeepsExclusive(s: State, e: Event, orderId: string)
    requires Exclusive(s, orderId) && e != Expire(orderId)
    ensures Exclusive(Step(s, e), orderId)
    ensures LockOwned(s, orderId) && !e.Die? ==> LockOwned(Step(s, e), orderId)
  {
    var s' := Step(s, e);
    forall w: nat | Actor(e) != Some(w) ensures InsideAt(s', w, orderId) <==> InsideAt(s, w, orderId) {
      StepOtherWorkers(s, e, w);
      assert WorkerAt(s', w) == WorkerAt(s, w);
    }
    if e.Acquire? || e.Release? || e.Die? {
      StepLocks(s, e, orderId, e.worker);
    } else if Actor(e).Some? {
      StepOwnInside(s, e, orderId, Actor(e).value);
    } else {
      StepNoActor(s, e, orderId);
    }
    if LockOwned(s, orderId) && !e.Die? && orderId in s'.locks {
      if orderId in s.locks {
        var w: nat :| InsideAt(s, w, orderId);
        assert InsideAt(s', w, orderId);
      } else {
        assert InsideAt(s', Actor(e).value, orderId);
      }
    }
  }

  predicate NeverExpires(events: seq<Event>, orderId: string) {
    forall k :: 0 <= k < |events| ==> events[k] != Expire(orderId)
  }

  lemma {:induction false} RunKeepsExclusive(s: State, events: seq<Event>, orderId: string)
    requires Exclusive(s, orderId) && NeverExpires(events, orderId)
    ensures Exclusive(Run(s, events), orderId)
    ensures LockOwned(s, orderId) && (forall k :: 0 <= k < |events| ==> !events[k].Die?)
            ==> LockOwned(Run(s, events), orderId)
    decreases |events|
  {
    if events != [] {
      StepKeepsExclusive(s, events[0], orderId);
      RunKeepsExclusive(Step(s, events[0]), events[1..], orderId);
    }
  }

  /** In runs where the lock of an order does not expire, at most one worker is between acquire and
      release for it, and whenever no worker is, the lock is free again: every exit path of a
      holder, errors and retries included, has released it. */
  lemma MutualExclusion(s: State, events: seq<Event>, orderId: string)
    requires Init(s) && NeverExpires(events, orderId)
    ensures Exclusive(Run(s, events), orderId)
    ensures (forall k :: 0 <= k < |events| ==> !events[k].Die?) ==> LockOwned(Run(s, events), orderId)
  {
    RunKeepsExclusive(s, events, orderId);
  }

  /** Expiry is what the exclusion depends on: whenever a lock expires while its holder is at work,
      the next delivery for the order puts a second worker inside. */
  lemma ExpiryAdmitsSecondWorker(s: State, orderId: string, w: nat, v: nat, env: Envelope)
    requires InsideAt(s, w, orderId)
    requires v !in s.workers && env in s.queue && env.orderId == orderId
    ensures var t := Run(s, [Expire(orderId), Deliver(v, env), Acquire(v)]);
            InsideAt(t, w, orderId) && InsideAt(t, v, orderId) && w != v
  {
    var es := [Expire(orderId), Deliver(v, env), Acquire(v)];
    var s1 := Step(s, es[0]);
    var s2 := Step(s1, es[1]);
    var s3 := Step(s2, es[2]);
    assert es[1..][1..][1..] == [];
    assert Run(s2, es[1..][1..]) == s3;
    assert Run(s1, es[1..]) == s3;
  }
}
