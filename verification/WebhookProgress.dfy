/** What a webhook task achieves when nothing disturbs it, and what becomes of it when something does. */
module WebhookProgress {
  import opened Wrappers
  import opened Payments
  import opened RefundProtocol
  import opened RefundInvariants
  import opened RefundTheorems
  import opened RefundStatus
  import opened RefundRecords
  import opened MobileReturns

  // ----- Recording -----

  /** The message comes from Apple or Google. */
  predicate FromStore(kind: HookKind) {
    kind == IosHook || kind == AndroidHook
  }

  /** The payment the message is about: the one with the key for Stripe, else one with a transaction of the provider's
      id. */
  predicate IsAbout(s: State, msg: HookMessage, key: string) {
    key in s.payments
    && if msg.kind == StripeHook then key == msg.lookup
       else exists i :: 0 <= i < |TransactionsOf(s, key)| && TransactionsOf(s, key)[i].interactionId == Some(msg.lookup)
  }

  lemma AboutIsFound(s: State, s': State, msg: HookMessage, key: string)
    requires s'.payments == s.payments && IsAbout(s, msg, key)
    ensures Finds(s', msg, key)
  {
    if msg.kind != StripeHook {
      var ts := TransactionsOf(s, key);
      var i :| 0 <= i < |ts| && ts[i].interactionId == Some(msg.lookup);
      assert s'.payments[key].value.transactions[i].interactionId == Some(msg.lookup);
    }
  }

  /** The payment does not show the refund, and something is left to refund. */
  predicate Unrecorded(s: State, msg: HookMessage, key: string) {
    IsAbout(s, msg, key) && !FullyRefunded(TransactionsOf(s, key))
        && !HasRefund(TransactionsOf(s, key), Some(msg.refund.id))
  }

  /** The transaction that stands for the reported refund. */
  predicate Reports(t: Transaction, id: string, msg: HookMessage, p: Payment) {
    && t.id == id && Describes(t, Reported(msg, p), p)
    && match msg.kind
       case StripeHook => t.cents == msg.refund.cents
       case IosHook => t.cents == msg.refund.cents
       case PayPalHook => PayPalAmount(t.cents, msg.refund.cents)
       case AndroidHook => t.cents == p.amountPlanned
  }

  lemma TransactionReports(id: string, msg: HookMessage, p: Payment)
    ensures Reports(HookTransaction(id, msg, p), id, msg, p)
  {
    TransactionDescribes(id, Reported(msg, p), HookCents(msg, p), p);
    PayPalCentsAre(msg.refund.cents);
  }

  /** The state after a payment has taken in a transaction. */
  function WithTransaction(p: Versioned<Payment>, t: Transaction): Versioned<Payment> {
    Versioned(p.version + 1, p.value.(transactions := p.value.transactions + [t]))
  }

  /** Start, read and write: the refund is recorded. */
  lemma TaskRecords(s: State, w: nat, msg: HookMessage, key: string, env: Env)
    requires w !in s.hooks && msg.refund.id in s.psp && env.fault == NoFault && env.pick == key
             && Unrecorded(s, msg, key)
    ensures var h := StepHook(w, env);
            var s' := Run(s, [StartHook(w, msg), h, h]);
            var t := HookTransaction(env.newId, msg, s.payments[key].value);
            s'.payments == s.payments[key := WithTransaction(s.payments[key], t)]
            && s'.orders == s.orders && s'.pipelines == s.pipelines
            && s'.hooks == s.hooks[w := if FromStore(msg.kind) then HookFindOrder(msg, 0, key, s'.payments[key])
                                        else HookNotify(msg, 0, key, s'.payments[key])]
  {
    var h := StepHook(w, env);
    RunThree(s, StartHook(w, msg), h, h);
    TaskStarts(s, w, msg);
    var s1 := Then(s, w, HookRead(msg, 0));
    AboutIsFound(s, s1, msg, key);
    TaskReads(s1, w, msg, key, env);
    var s2 := Then(s1, w, HookWrite(msg, 0, key, s.payments[key]));
    TaskWrites(s2, w, msg, key, env);
    LastStands(s.hooks, w, HookRead(msg, 0), HookWrite(msg, 0, key, s.payments[key]), Step(s2, h).hooks[w]);
  }

  lemma TaskStarts(s: State, w: nat, msg: HookMessage)
    requires w !in s.hooks && msg.refund.id in s.psp
    ensures Step(s, StartHook(w, msg)) == Then(s, w, HookRead(msg, 0))
  {
  }

  lemma LastStands(hooks: map<nat, Hook>, w: nat, a: Hook, b: Hook, c: Hook)
    ensures hooks[w := a][w := b][w := c] == hooks[w := c]
  {
  }

  lemma TaskReads(s: State, w: nat, msg: HookMessage, key: string, env: Env)
    requires w in s.hooks && s.hooks[w] == HookRead(msg, 0) && env.fault == NoFault && env.pick == key
    requires Finds(s, msg, key) && !FullyRefunded(TransactionsOf(s, key))
             && !HasRefund(TransactionsOf(s, key), Some(msg.refund.id))
    ensures Step(s, StepHook(w, env)) == Then(s, w, HookWrite(msg, 0, key, s.payments[key]))
  {
  }

  lemma TaskWrites(s: State, w: nat, msg: HookMessage, key: string, env: Env)
    requires key in s.payments && w in s.hooks && s.hooks[w] == HookWrite(msg, 0, key, s.payments[key])
    requires env.fault == NoFault
    ensures var s' := Step(s, StepHook(w, env));
            var t := HookTransaction(env.newId, msg, s.payments[key].value);
            s'.payments == s.payments[key := WithTransaction(s.payments[key], t)]
            && s'.orders == s.orders && s'.pipelines == s.pipelines
            && s'.hooks == s.hooks[w := if FromStore(msg.kind) then HookFindOrder(msg, 0, key, s'.payments[key])
                                        else HookNotify(msg, 0, key, s'.payments[key])]
  {
  }

  /** A Stripe or PayPal task that nothing disturbs, in any state: the payment it finds has the reported refund as its
      one new transaction, no other payment and no order changes, and the task is done. */
  lemma UndisturbedTaskRecords(s: State, w: nat, msg: HookMessage, key: string, env: Env)
    requires w !in s.hooks && msg.refund.id in s.psp && env.fault == NoFault && env.pick == key
             && Unrecorded(s, msg, key)
    requires !FromStore(msg.kind)
    ensures var h := StepHook(w, env);
            var s' := Step(Run(s, [StartHook(w, msg), h, h]), h);
            w in s'.hooks && s'.hooks[w].HookDone? && s'.orders == s.orders
            && exists t :: s'.payments == s.payments[key := WithTransaction(s.payments[key], t)]
                           && Reports(t, env.newId, msg, s.payments[key].value)
  {
    TaskRecords(s, w, msg, key, env);
    TransactionReports(env.newId, msg, s.payments[key].value);
  }

  /** When the payment shows the refund, or counts as fully refunded, the task changes nothing; it is done, except that
      a mobile task goes on to the return items. */
  lemma KnownRefundIsSkipped(s: State, w: nat, msg: HookMessage, key: string, env: Env)
    requires w !in s.hooks && msg.refund.id in s.psp && env.fault == NoFault && env.pick == key
    requires IsAbout(s, msg, key) && !Unrecorded(s, msg, key)
    ensures var s' := Step(Step(s, StartHook(w, msg)), StepHook(w, env));
            s'.payments == s.payments && s'.orders == s.orders && s'.recordings == s.recordings
            && w in s'.hooks
            && s'.hooks[w] == if FromStore(msg.kind) then HookFindOrder(msg, 0, key, s.payments[key])
                              else HookDone(msg, Some(Found(key, s.payments[key])))
  {
    var s1 := Step(s, StartHook(w, msg));
    AboutIsFound(s, s1, msg, key);
    assert s1.hooks[w] == HookRead(msg, 0);
  }

  // ----- Marking -----

  lemma {:induction false} PickedIdsAreKnown(info: seq<seq<ReturnItem>>)
    requires UnprocessedIds(info).Some?
    ensures KnowsAll(ReturnItems(info), UnprocessedIds(info).value)
  {
    var k := PickedReturn(info);
    var ids := UnprocessedIds(info).value;
    if k >= 0 {
      forall id | id in ids ensures exists i :: 0 <= i < |ReturnItems(info)| && ReturnItems(info)[i].id == id {
        IdsOfItems(info[k], id);
        var n :| 0 <= n < |info[k]| && info[k][n].id == id;
        ItemOfReturn(info, k, n);
      }
    }
  }

  lemma ItemOfReturn(info: seq<seq<ReturnItem>>, k: int, n: int)
    requires 0 <= k < |info| && 0 <= n < |info[k]|
    ensures exists i :: 0 <= i < |ReturnItems(info)| && ReturnItems(info)[i] == info[k][n]
  {
    var a, b, c := info[..k], [info[k]], info[k + 1..];
    assert info == a + b + c;
    ReturnItemsConcat(a + b, c);
    ReturnItemsConcat(a, b);
    assert ReturnItems(info)[|ReturnItems(a)| + n] == info[k][n];
  }

  /** The order is paid with the payment and has a refunded return item without a transaction. */
  predicate NeedsMarking(o: Order, key: string) {
    (exists i :: 0 <= i < |o.payments| && o.payments[i].interfaceId == Some(key))
    && exists k, i ::
         0 <= k < |o.returnInfo| && 0 <= i < |o.returnInfo[k]|
         && o.returnInfo[k][i].state == Refunded && o.returnInfo[k][i].transactionId == None
  }

  /** An order that the task can mark: it needs marking, and no empty return is in the way. */
  predicate Markable(s: State, orderId: string, key: string) {
    orderId in s.orders && NeedsMarking(s.orders[orderId].value, key)
    && UnprocessedIds(s.orders[orderId].value.returnInfo).Some?
  }

  lemma {:induction false} ItemComesFrom(info: seq<seq<ReturnItem>>, n: int)
    requires 0 <= n < |ReturnItems(info)|
    ensures exists k, i :: 0 <= k < |info| && 0 <= i < |info[k]| && ReturnItems(info)[n] == info[k][i]
  {
    var m := |info| - 1;
    if n < |ReturnItems(info[..m])| {
      ItemComesFrom(info[..m], n);
      var k, i :| 0 <= k < m && 0 <= i < |info[..m][k]| && ReturnItems(info[..m])[n] == info[..m][k][i];
      assert info[k] == info[..m][k];
    } else {
      assert ReturnItems(info)[n] == info[m][n - |ReturnItems(info[..m])|];
    }
  }

  lemma NeedsMarkingIsFound(o: Order, key: string)
    ensures NeedsMarking(o, key) <==> HasUnprocessed(o, key)
  {
    var items := ReturnItems(o.returnInfo);
    if NeedsMarking(o, key) {
      var k, i :| 0 <= k < |o.returnInfo| && 0 <= i < |o.returnInfo[k]|
          && o.returnInfo[k][i].state == Refunded && o.returnInfo[k][i].transactionId == None;
      ItemOfReturn(o.returnInfo, k, i);
    }
    if HasUnprocessed(o, key) {
      var n :| 0 <= n < |items| && items[n].state == Refunded && items[n].transactionId == None;
      ItemComesFrom(o.returnInfo, n);
    }
  }

  /** Find the order, mark its return items, tag the transaction. */
  lemma TaskMarks(s: State, w: nat, h: Hook, orderId: string, env: Env)
    requires w in s.hooks && s.hooks[w] == h && h.HookFindOrder? && env.fault == NoFault && env.pick == orderId
    requires Markable(s, orderId, h.key) && h.key in s.payments && s.payments[h.key] == h.read
    requires ResolveTransaction(h.read.value.transactions, Some(h.msg.refund.id)) != ""
    ensures var e := StepHook(w, env);
            var t := Step(Step(Step(s, e), e), e);
            var ids := UnprocessedIds(s.orders[orderId].value.returnInfo).value;
            var tid := ResolveTransaction(h.read.value.transactions, Some(h.msg.refund.id));
            var tags := h.read.value.tags[tid := JoinIds(ids)];
            w in t.hooks && t.hooks[w].HookDone? && t.orders != s.orders
            && t.payments == s.payments[h.key := Versioned(h.read.version + 1, h.read.value.(tags := tags))]
            && MobileStatusCommitted(s.orders,
                                     HookWriteOrder(h.msg, h.retries, h.key, h.read, orderId,
                                                    s.orders[orderId].version, ids),
                                     t.orders)
  {
    var e := StepHook(w, env);
    var order := s.orders[orderId];
    var ids := UnprocessedIds(order.value.returnInfo).value;
    var h1 := HookWriteOrder(h.msg, h.retries, h.key, h.read, orderId, order.version, ids);
    PickedIdsAreKnown(order.value.returnInfo);
    OrderFound(s, w, h, orderId, env);
    var s1 := Step(s, e);
    MarkingCommits(s1, w, h1, env);
    TagEnds(Step(s1, e), w, env);
  }

  lemma OrderFound(s: State, w: nat, h: Hook, orderId: string, env: Env)
    requires w in s.hooks && s.hooks[w] == h && h.HookFindOrder? && env.fault == NoFault && env.pick == orderId
    requires Markable(s, orderId, h.key)
    ensures var order := s.orders[orderId];
            Step(s, StepHook(w, env))
            == Then(s, w, HookWriteOrder(h.msg, h.retries, h.key, h.read, orderId, order.version,
                                         UnprocessedIds(order.value.returnInfo).value))
  {
    NeedsMarkingIsFound(s.orders[orderId].value, h.key);
  }

  lemma MarkingCommits(s: State, w: nat, h: Hook, env: Env)
    requires w in s.hooks && s.hooks[w] == h && h.HookWriteOrder? && env.fault == NoFault
    requires h.orderId in s.orders && s.orders[h.orderId].version == h.version
    requires KnowsAll(ReturnItems(s.orders[h.orderId].value.returnInfo), h.returnIds)
    requires HookStatus(h.msg, h.read, h.returnIds).transactionId != ""
    ensures var t := Step(s, StepHook(w, env));
            t.payments == s.payments && t.orders != s.orders && MobileStatusCommitted(s.orders, h, t.orders)
                && w in t.hooks
            && t.hooks[w] == HookTag(h.msg, h.retries, h.key, h.read,
                                     HookStatus(h.msg, h.read, h.returnIds).transactionId, h.returnIds)
  {
    var t := Step(s, StepHook(w, env));
    assert t.orders[h.orderId].version == h.version + 1;
    MobileCommitMarks(s, w, h, env);
  }

  lemma TagEnds(s: State, w: nat, env: Env)
    requires w in s.hooks && s.hooks[w].HookTag? && env.fault == NoFault
    requires s.hooks[w].key in s.payments && s.payments[s.hooks[w].key] == s.hooks[w].read
    ensures var h := s.hooks[w];
            var t := Step(s, StepHook(w, env));
            var tags := h.read.value.tags[h.transactionId := JoinIds(h.returnIds)];
            w in t.hooks && t.hooks[w].HookDone? && t.orders == s.orders
            && t.payments == s.payments[h.key := Versioned(h.read.version + 1, h.read.value.(tags := tags))]
  {
  }

  /** A mobile task that nothing disturbs records the refund, and marks the return items it picks in the order it finds
      with the recorded transaction. */
  lemma UndisturbedMobileTask(s: State, w: nat, msg: HookMessage, key: string, orderId: string, env: Env, env': Env)
    requires w !in s.hooks && msg.refund.id in s.psp && FromStore(msg.kind) && Unrecorded(s, msg, key)
    requires env.fault == NoFault && env.pick == key && env.newId != ""
    requires env'.fault == NoFault && env'.pick == orderId && Markable(s, orderId, key)
    ensures var h, h' := StepHook(w, env), StepHook(w, env');
            var t := Step(Step(Step(Run(s, [StartHook(w, msg), h, h]), h'), h'), h');
            var info := s.orders[orderId].value.returnInfo;
            w in t.hooks && t.hooks[w].HookDone? && key in t.payments && orderId in t.orders
            && (exists tr :: TransactionsOf(t, key) == TransactionsOf(s, key) + [tr]
                             && Reports(tr, env.newId, msg, s.payments[key].value))
            && env.newId in t.payments[key].value.tags
            && t.payments[key].value.tags[env.newId] == JoinIds(UnprocessedIds(info).value)
            && PointedTo(ReturnItems(info), ReturnItems(t.orders[orderId].value.returnInfo), UnprocessedIds(info).value,
                         env.newId)
  {
    var h := StepHook(w, env);
    TaskRecords(s, w, msg, key, env);
    var s1 := Run(s, [StartHook(w, msg), h, h]);
    var tr := HookTransaction(env.newId, msg, s.payments[key].value);
    TransactionReports(env.newId, msg, s.payments[key].value);
    var ts := TransactionsOf(s, key);
    OneRefundResolves(ts, tr);
    TaskMarks(s1, w, s1.hooks[w], orderId, env');
    var h' := StepHook(w, env');
    var t := Step(Step(Step(s1, h'), h'), h');
    assert TransactionsOf(t, key) == ts + [tr];
    MarkedItemsPoint(s, s1.hooks[w], orderId, ts, tr, t.orders);
  }

  /** The named items point to the transaction; nothing else about them, and no other item, has changed. */
  ghost predicate PointedTo(before: seq<ReturnItem>, after: seq<ReturnItem>, ids: seq<string>, tid: string) {
    |after| == |before|
    && forall i :: 0 <= i < |before| ==>
         if before[i].id in ids then after[i].state == before[i].state && after[i].transactionId == Some(tid)
         else after[i] == before[i]
  }

  lemma OneRefundResolves(ts: seq<Transaction>, tr: Transaction)
    requires tr.kind == Refund && tr.interactionId.Some? && !HasRefund(ts, tr.interactionId) && tr.id != ""
    ensures ResolveTransaction(ts + [tr], tr.interactionId) == tr.id
    ensures forall id :: ResolvesTo(ts + [tr], tr.interactionId, id) ==> id == tr.id
  {
    var all := ts + [tr];
    assert IsRefundOf(all[|ts|], tr.interactionId);
    assert forall k :: 0 <= k < |ts| ==> all[k] == ts[k];
    assert forall k :: 0 <= k < |all| && IsRefundOf(all[k], tr.interactionId) ==> k == |ts|;
    RefundTransactionFound(all, tr.interactionId);
  }

  lemma MarkedItemsPoint(s: State, h: Hook, orderId: string, ts: seq<Transaction>, tr: Transaction,
                         orders': map<string, Versioned<Order>>)
    requires h.HookFindOrder? && h.read.value.transactions == ts + [tr] && orderId in s.orders
    requires tr.kind == Refund && tr.interactionId == Some(h.msg.refund.id) && tr.id != ""
             && !HasRefund(ts, tr.interactionId)
    requires UnprocessedIds(s.orders[orderId].value.returnInfo).Some?
    requires var ids := UnprocessedIds(s.orders[orderId].value.returnInfo).value;
             MobileStatusCommitted(s.orders,
                                   HookWriteOrder(h.msg, h.retries, h.key, h.read, orderId, s.orders[orderId].version,
                                                  ids),
                                   orders')
    ensures PointedTo(ReturnItems(s.orders[orderId].value.returnInfo), ReturnItems(orders'[orderId].value.returnInfo),
                      UnprocessedIds(s.orders[orderId].value.returnInfo).value, tr.id)
  {
    OneRefundResolves(ts, tr);
  }

  // ----- Nothing to mark, nothing to find -----

  /** When no order needs marking the task is done. */
  lemma NothingToMark(s: State, w: nat, env: Env)
    requires w in s.hooks && s.hooks[w].HookFindOrder? && env.fault == NoFault
    requires forall o :: o in s.orders ==> !NeedsMarking(s.orders[o].value, s.hooks[w].key)
    ensures var h := s.hooks[w];
            Step(s, StepHook(w, env)) == Then(s, w, HookDone(h.msg, Some(Found(h.key, h.read))))
  {
    forall o | o in s.orders ensures !HasUnprocessed(s.orders[o].value, s.hooks[w].key) {
      NeedsMarkingIsFound(s.orders[o].value, s.hooks[w].key);
    }
  }

  /** When the lookup of the items raises the task fails. */
  lemma EmptyReturnFailsTask(s: State, w: nat, env: Env)
    requires w in s.hooks && s.hooks[w].HookFindOrder? && env.fault == NoFault && env.pick in s.orders
    requires NeedsMarking(s.orders[env.pick].value, s.hooks[w].key)
             && UnprocessedIds(s.orders[env.pick].value.returnInfo) == None
    ensures Step(s, StepHook(w, env)) == Then(s, w, HookFailed)
  {
    NeedsMarkingIsFound(s.orders[env.pick].value, s.hooks[w].key);
  }

  /** When the message is about no payment, a Stripe task fails, since its payment has to exist, and any other task is
      done; neither changes anything. */
  lemma NoPaymentFound(s: State, w: nat, env: Env)
    requires w in s.hooks && s.hooks[w].HookRead? && env.fault == NoFault
    requires forall key :: key in s.payments ==> !IsAbout(s, s.hooks[w].msg, key)
    ensures var msg := s.hooks[w].msg;
            Step(s, StepHook(w, env)) == Then(s, w, if msg.kind == StripeHook then HookFailed else HookDone(msg, None))
  {
    var msg := s.hooks[w].msg;
    forall key | key in s.payments ensures !Finds(s, msg, key) {
      assert !IsAbout(s, msg, key);
      assert TransactionsOf(s, key) == s.payments[key].value.transactions;
    }
  }

  // ----- What disturbs a task -----

  /** The task is started over from its first read. */
  predicate StartedOver(s: State, w: nat, h: Hook, s': State)
    requires !h.HookDone? && !h.HookFailed?
  {
    w in s'.hooks && s'.hooks[w] == HookRead(h.msg, h.retries + 1)
  }

  lemma FaultAtWrite(s: State, w: nat, h: Hook, env: Env)
    requires h.HookWrite? && env.fault != NoFault
    ensures StepHookWrite(s, w, h.msg, h.retries, h.key, h.read, env).hooks
            == s.hooks[w := Faulted(h.msg, h.retries, env)]
  {
  }

  lemma FaultAtMarking(s: State, w: nat, h: Hook, env: Env)
    requires h.HookWriteOrder? && env.fault != NoFault
    ensures StepHookWriteOrder(s, w, h, env).hooks == s.hooks[w := Faulted(h.msg, h.retries, env)]
  {
  }

  lemma FaultAtTag(s: State, w: nat, h: Hook, env: Env)
    requires h.HookTag? && env.fault != NoFault
    ensures StepHookTag(s, w, h, env).hooks == s.hooks[w := Faulted(h.msg, h.retries, env)]
  {
  }

  /** After its first read a task whose request fails, on the way there or back, is started over exactly when the error
      is of a kind that Celery retries and fewer than five retries have been made; otherwise it fails. */
  lemma FaultIsRetriedExactlyWhen(s: State, w: nat, env: Env)
    requires w in s.hooks && env.fault != NoFault
    requires !s.hooks[w].HookRead? && !s.hooks[w].HookDone? && !s.hooks[w].HookFailed?
    ensures var h, s' := s.hooks[w], Step(s, StepHook(w, env));
            w in s'.hooks && (StartedOver(s, w, h, s') <==> env.handled && h.retries < 5)
            && (!StartedOver(s, w, h, s') ==> s'.hooks[w] == HookFailed)
  {
    var h := s.hooks[w];
    if h.HookWrite? {
      FaultAtWrite(s, w, h, env);
    } else if h.HookWriteOrder? {
      FaultAtMarking(s, w, h, env);
    } else if h.HookTag? {
      FaultAtTag(s, w, h, env);
    }
  }

  /** A refused write of the payment makes the task start over while retries are left; a refused write of the order,
      or of the tag, makes it fail. Neither changes anything else. */
  lemma ConflictIsRetriedExactlyWhen(s: State, w: nat, env: Env)
    requires w in s.hooks && env.fault == NoFault
    requires s.hooks[w].HookWrite? || s.hooks[w].HookWriteOrder? || s.hooks[w].HookTag?
    requires var h := s.hooks[w];
             if h.HookWriteOrder? then h.orderId in s.orders && s.orders[h.orderId].version != h.version
             else h.key in s.payments && s.payments[h.key].version != h.read.version
    ensures var h, s' := s.hooks[w], Step(s, StepHook(w, env));
            w in s'.hooks && s' == Then(s, w, s'.hooks[w])
            && (StartedOver(s, w, h, s') <==> h.HookWrite? && h.retries < 5)
            && (!StartedOver(s, w, h, s') ==> s'.hooks[w] == HookFailed)
  {
  }
}
