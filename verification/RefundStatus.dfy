/** What a committed status update leaves in the order, in every run of the refund protocol. */
module RefundStatus {
  import opened Wrappers
  import opened Payments
  import opened RefundProtocol
  import opened RefundInvariants
  import opened RefundTheorems

  // ----- What the pipeline hands on -----

  predicate IsRefundedItem(item: ReturnItem, lineItemId: string) {
    item.lineItemId == lineItemId && item.state == Refunded
  }

  ghost predicate FirstRefunded(items: seq<ReturnItem>, lineItemId: string, i: nat) {
    i < |items| && IsRefundedItem(items[i], lineItemId) && forall j ::
        0 <= j < i ==> !IsRefundedItem(items[j], lineItemId)
  }

  lemma {:induction false} AlreadyRefundedIsFirst(items: seq<ReturnItem>, lineItemId: string)
    ensures AlreadyRefundedItem(items, lineItemId).None? <==> forall i ::
            0 <= i < |items| ==> !IsRefundedItem(items[i], lineItemId)
    ensures forall i: nat ::
            FirstRefunded(items, lineItemId, i) ==> AlreadyRefundedItem(items, lineItemId) == Some(items[i])
  {
    if items != [] {
      AlreadyRefundedIsFirst(items[1..], lineItemId);
      if IsRefundedItem(items[0], lineItemId) {
        assert forall i: nat :: FirstRefunded(items, lineItemId, i) ==> i == 0;
      } else {
        assert forall i :: 0 < i < |items| ==> items[i] == items[1..][i - 1];
        forall i: nat | FirstRefunded(items, lineItemId, i)
          ensures AlreadyRefundedItem(items, lineItemId) == Some(items[i]) {
          forall j | 0 <= j < i - 1 ensures !IsRefundedItem(items[1..][j], lineItemId) {
            assert items[1..][j] == items[j + 1];
          }
          assert FirstRefunded(items[1..], lineItemId, i - 1);
        }
      }
    }
  }

  /** A refund is asked for exactly the line items of the message without a refunded return item. */
  lemma {:induction false} FilteredExactly(items: seq<ReturnItem>, lines: seq<ReturnLine>, id: string)
    ensures id in FilteredIds(items, lines)
            <==> (exists j :: 0 <= j < |lines| && lines[j].lineItemId == id) && forall i ::
                 0 <= i < |items| ==> !IsRefundedItem(items[i], id)
  {
    AlreadyRefundedIsFirst(items, id);
    if lines != [] {
      var front := lines[..|lines| - 1];
      FilteredExactly(items, front, id);
      if j :| 0 <= j < |lines| && lines[j].lineItemId == id && j != |lines| - 1 {
        assert front[j].lineItemId == id;
      }
    }
  }

  /** The transaction recorded for a line item is that of its first refunded return item, unless it is empty. */
  lemma RecordedTransactionIs(items: seq<ReturnItem>, lineItemId: string, i: nat)
    requires FirstRefunded(items, lineItemId, i)
    ensures RecordedTransaction(items, lineItemId) == if items[i].transactionId == Some("") then None
            else items[i].transactionId
  {
    AlreadyRefundedIsFirst(items, lineItemId);
  }

  ghost predicate RecordedLine(items: seq<ReturnItem>, lines: seq<ReturnLine>, returnId: string, j: int) {
    0 <= j < |lines| && lines[j].returnId == returnId && RecordedTransaction(items, lines[j].lineItemId).Some?
  }

  ghost predicate LastRecordedLine(items: seq<ReturnItem>, lines: seq<ReturnLine>, returnId: string, j: int) {
    RecordedLine(items, lines, returnId, j) && forall j' ::
        j < j' < |lines| ==> !RecordedLine(items, lines, returnId, j')
  }

  /** What the dictionary of recorded transactions holds for one return id. */
  ghost predicate Looks(items: seq<ReturnItem>, lines: seq<ReturnLine>, id: string, found: Option<string>) {
    && (found.None? <==> forall j :: !RecordedLine(items, lines, id, j))
    && (forall j :: LastRecordedLine(items, lines, id, j) ==> found == RecordedTransaction(items, lines[j].lineItemId))
  }

  function LookUp(m: map<string, string>, id: string): Option<string> {
    if id in m then Some(m[id]) else None
  }

  lemma RecordedLineOfFront(items: seq<ReturnItem>, lines: seq<ReturnLine>, id: string, j: int)
    requires lines != [] && j != |lines| - 1
    ensures RecordedLine(items, lines, id, j) <==> RecordedLine(items, lines[..|lines| - 1], id, j)
  {
  }

  lemma LooksAfter(items: seq<ReturnItem>, lines: seq<ReturnLine>, id: string, found: Option<string>)
    requires lines != [] && Looks(items, lines[..|lines| - 1], id, found)
    ensures var last := lines[|lines| - 1];
            Looks(items, lines, id,
                  if RecordedLine(items, lines, id, |lines| - 1) then RecordedTransaction(items, last.lineItemId)
                  else found)
  {
    var n := |lines| - 1;
    var front := lines[..n];
    forall j | j != n ensures RecordedLine(items, lines, id, j) <==> RecordedLine(items, front, id, j) {
      RecordedLineOfFront(items, lines, id, j);
    }
    if !RecordedLine(items, lines, id, n) {
      assert !RecordedLine(items, front, id, n);
      forall j | LastRecordedLine(items, lines, id, j) ensures LastRecordedLine(items, front, id, j) {
        assert RecordedLine(items, front, id, j);
      }
    }
  }

  lemma {:induction false} RefundedItemsMeaning(items: seq<ReturnItem>, lines: seq<ReturnLine>, id: string)
    ensures Looks(items, lines, id, LookUp(RefundedItems(items, lines), id))
  {
    if lines != [] {
      RefundedItemsMeaning(items, lines[..|lines| - 1], id);
      LooksAfter(items, lines, id, LookUp(RefundedItems(items, lines[..|lines| - 1]), id));
    }
  }

  ghost predicate IsLast(items: seq<ReturnLine>, l: ReturnLine) {
    exists i :: LastFor(items, i) && items[i] == l
  }

  lemma LastForFront(items: seq<ReturnLine>, i: nat)
    requires i < |items| - 1
    ensures LastFor(items, i)
            <==> LastFor(items[..|items| - 1], i) && items[i].lineItemId != items[|items| - 1].lineItemId
  {
  }

  lemma LastAfter(items: seq<ReturnLine>, l: ReturnLine)
    requires items != []
    ensures var n := |items| - 1;
            IsLast(items, l) <==> l == items[n] || (IsLast(items[..n], l) && l.lineItemId != items[n].lineItemId)
  {
    var n := |items| - 1;
    assert LastFor(items, n);
    if IsLast(items, l) && l != items[n] {
      var i :| LastFor(items, i) && items[i] == l;
      LastForFront(items, i);
      assert items[..n][i] == l;
    }
    if IsLast(items[..n], l) && l.lineItemId != items[n].lineItemId {
      var i :| LastFor(items[..n], i) && items[..n][i] == l;
      LastForFront(items, i);
    }
  }

  /** The dictionary of a message has one entry for each line item, with the return id that came
      last. */
  lemma {:induction false} CollectedLines(items: seq<ReturnLine>)
    ensures DistinctItems(CollectLines(items))
    ensures forall l :: l in CollectLines(items) <==> IsLast(items, l)
  {
    if items != [] {
      var n := |items| - 1;
      CollectedLines(items[..n]);
      SetLineKeeps(CollectLines(items[..n]), items[n]);
      forall l ensures l in CollectLines(items) <==> IsLast(items, l) {
        LastAfter(items, l);
      }
    }
  }

  ghost predicate DistinctItems(lines: seq<ReturnLine>) {
    forall i, j :: 0 <= i < j < |lines| ==> lines[i].lineItemId != lines[j].lineItemId
  }

  ghost predicate LastFor(items: seq<ReturnLine>, i: int) {
    0 <= i < |items| && forall j :: i < j < |items| ==> items[j].lineItemId != items[i].lineItemId
  }

  lemma {:induction false} SetLineMembers(lines: seq<ReturnLine>, item: ReturnLine)
    requires DistinctItems(lines)
    ensures forall l :: l in SetLine(lines, item) <==> l == item || (l in lines && l.lineItemId != item.lineItemId)
  {
    if lines != [] {
      var rest := lines[1..];
      assert lines == [lines[0]] + rest;
      assert DistinctItems(rest);
      forall l | l in rest ensures l.lineItemId != lines[0].lineItemId {
        var i :| 0 <= i < |rest| && rest[i] == l;
        assert lines[i + 1] == l;
      }
      if lines[0].lineItemId != item.lineItemId {
        SetLineMembers(rest, item);
      }
    }
  }

  lemma {:induction false} SetLineKeeps(lines: seq<ReturnLine>, item: ReturnLine)
    requires DistinctItems(lines)
    ensures DistinctItems(SetLine(lines, item))
    ensures forall l :: l in SetLine(lines, item) <==> l == item || (l in lines && l.lineItemId != item.lineItemId)
  {
    SetLineMembers(lines, item);
    if lines != [] && lines[0].lineItemId != item.lineItemId {
      var rest := SetLine(lines[1..], item);
      SetLineKeeps(lines[1..], item);
      ConsDistinct(lines[0], lines[1..], rest, item);
    }
  }

  lemma ConsDistinct(head: ReturnLine, tail: seq<ReturnLine>, rest: seq<ReturnLine>, item: ReturnLine)
    requires DistinctItems([head] + tail) && DistinctItems(rest) && head.lineItemId != item.lineItemId
    requires forall l :: l in rest ==> l == item || l in tail
    ensures DistinctItems([head] + rest)
  {
    var r := [head] + rest;
    forall l | l in rest ensures l.lineItemId != head.lineItemId {
      if l in tail {
        var i :| 0 <= i < |tail| && tail[i] == l;
        assert ([head] + tail)[0] == head && ([head] + tail)[i + 1] == l;
      }
    }
    forall i, j | 0 <= i < j < |r| ensures r[i].lineItemId != r[j].lineItemId {
      assert r[j] == rest[j - 1] && rest[j - 1] in rest;
    }
  }

  // ----- Marking return items -----

  lemma {:induction false} MarkItemsAt(items: seq<ReturnItem>, u: StatusUpdate, i: nat)
    requires i < |items|
    ensures MarkItems(items, u)[i]
            == if items[i].id in u.returnIds then MarkItem(items[i], u.state, TransactionFor(u, items[i].id),
                                                           EntitlementFor(u, items[i].id))
                                      else items[i]
  {
    if i > 0 {
      MarkItemsAt(items[1..], u, i - 1);
    }
  }

  lemma {:induction false} MarkItemsConcat(a: seq<ReturnItem>, b: seq<ReturnItem>, u: StatusUpdate)
    ensures MarkItems(a + b, u) == MarkItems(a, u) + MarkItems(b, u)
  {
    if a == [] {
      assert a + b == b;
    } else {
      MarkItemsConcat(a[1..], b, u);
      assert (a + b)[1..] == a[1..] + b;
    }
  }

  lemma {:induction false} MarkInfoIsMarkItems(info: seq<seq<ReturnItem>>, u: StatusUpdate)
    ensures ReturnItems(MarkInfo(info, u)) == MarkItems(ReturnItems(info), u)
  {
    if info != [] {
      var front := info[..|info| - 1];
      MarkInfoIsMarkItems(front, u);
      MarkItemsConcat(ReturnItems(front), info[|info| - 1], u);
      assert MarkInfo(info, u)[..|info| - 1] == MarkInfo(front, u);
    }
  }

  // ----- The transaction a return item ends up with -----

  ghost predicate IsNewestRefundId(ts: seq<Transaction>, id: string) {
    (exists k: nat :: IsLatestRefund(ts, k) && id == ts[k].id)
    || ((forall i :: 0 <= i < |ts| ==> !IsRefund(ts[i])) && id == "")
  }

  /** The refund transaction with the interaction id, else the newest refund, else the empty text. */
  ghost predicate ResolvesTo(ts: seq<Transaction>, interactionId: Option<string>, id: string) {
    if HasRefund(ts, interactionId) then
      exists k :: 0 <= k < |ts| && IsRefundOf(ts[k], interactionId) && if ts[k].id != "" then id == ts[k].id
        else IsNewestRefundId(ts, id)
    else IsNewestRefundId(ts, id)
  }

  lemma ResolveTransactionResolves(ts: seq<Transaction>, interactionId: Option<string>)
    ensures ResolvesTo(ts, interactionId, ResolveTransaction(ts, interactionId))
  {
    RefundTransactionFound(ts, interactionId);
    LatestRefundFound(ts);
    assert IsNewestRefundId(ts, FindLatestRefund(ts));
  }

  ghost predicate PointsTo(k: Kwargs, response: Response, payment: Payment, returnId: string, transactionId: string) {
    var items := ReturnItems(k.order.value.returnInfo);
    && (forall j ::
       LastRecordedLine(items, k.lines, returnId, j)
       ==> Some(transactionId) == RecordedTransaction(items, k.lines[j].lineItemId))
    && ((forall j :: !RecordedLine(items, k.lines, returnId, j))
       ==> ResolvesTo(payment.transactions, InteractionId(response), transactionId))
  }

  lemma StatusPointsTo(s: State, k: Kwargs, response: Response, pspError: bool, payment: Versioned<Payment>,
                       returnId: string)
    requires KwargsOk(s, k)
    ensures PointsTo(k, response, payment.value, returnId,
                     TransactionFor(StatusOf(k, response, pspError, payment), returnId))
  {
    RefundedItemsMeaning(ReturnItems(k.order.value.returnInfo), k.lines, returnId);
    ResolveTransactionResolves(payment.value.transactions, InteractionId(response));
  }

  lemma CommitReplacesOrderRead(s: State, w: nat, p: Pipeline, env: Env)
    requires p.WriteStatus? && KwargsOk(s, p.kwargs)
    ensures var s' := StepWriteStatus(s, w, p.kwargs, p.response, p.pspError, p.payment, env);
            var u := StatusOf(p.kwargs, p.response, p.pspError, p.payment);
            var o := p.kwargs.order;
            s'.orders != s.orders
            ==> p.kwargs.orderId in s.orders && s.orders[p.kwargs.orderId] == o
                && KnowsAll(ReturnItems(o.value.returnInfo), u.returnIds)
                && var o' := o.value.(returnInfo := MarkInfo(o.value.returnInfo, u));
                   s'.orders == s.orders[p.kwargs.orderId := Versioned(o.version + 1, o')]
  {
  }

  /** A status update that is committed replaces exactly the order the run read at its start. Every
      return item the message names is in it, is marked refunded, or not refunded after an error of
      the provider, and carries the transaction recorded for its line item if there was one, else
      the one of the provider's refund, else the newest refund. No other return item changes. */
  lemma CommittedStatus(start: State, events: seq<Event>, w: nat, env: Env)
    requires Init(start)
    ensures var s := Run(start, events);
            w in s.pipelines && s.pipelines[w].WriteStatus? && Step(s, StepPipeline(w, env)).orders != s.orders
            ==> StatusCommitted(s, s.pipelines[w], Step(s, StepPipeline(w, env)).orders)
  {
    var s := Run(start, events);
    Reachable(start, events);
    if w in s.pipelines && s.pipelines[w].WriteStatus? {
      assert PipelineOk(s, s.pipelines[w]);
      CommitMarks(s, w, s.pipelines[w], env);
    }
  }

  ghost predicate StatusCommitted(s: State, p: Pipeline, orders': map<string, Versioned<Order>>)
    requires p.WriteStatus?
  {
    var k := p.kwargs;
    k.orderId in s.orders && s.orders[k.orderId] == k.order && k.orderId in orders'
    && var before := ReturnItems(k.order.value.returnInfo);
       var after := ReturnItems(orders'[k.orderId].value.returnInfo);
       |after| == |before|
       && (forall id :: id in ReturnIds(k.lines) ==> exists i :: 0 <= i < |before| && before[i].id == id)
       && (forall i :: 0 <= i < |before| && before[i].id !in ReturnIds(k.lines) ==> after[i] == before[i])
       && (forall i :: 0 <= i < |before| && before[i].id in ReturnIds(k.lines) ==> Carries(p, before[i], after[i]))
  }

  /** The return item is marked, points to the transaction that was chosen for it, and has the entitlement of the
      message. */
  ghost predicate Carries(p: Pipeline, before: ReturnItem, after: ReturnItem)
    requires p.WriteStatus?
  {
    after.id == before.id && after.lineItemId == before.lineItemId
    && after.state == (if p.pspError then NotRefunded else Refunded) && after.transactionId.Some?
    && PointsTo(p.kwargs, p.response, p.payment.value, before.id, after.transactionId.value)
    && after.entitlementId == (if before.id in p.kwargs.entitlements && p.kwargs.entitlements[before.id] != ""
                               then Some(p.kwargs.entitlements[before.id]) else None)
  }

  lemma CommitMarks(s: State, w: nat, p: Pipeline, env: Env)
    requires p.WriteStatus? && KwargsOk(s, p.kwargs)
    ensures var s' := StepWriteStatus(s, w, p.kwargs, p.response, p.pspError, p.payment, env);
            s'.orders != s.orders ==> StatusCommitted(s, p, s'.orders)
  {
    var k := p.kwargs;
    var u := StatusOf(k, p.response, p.pspError, p.payment);
    CommitReplacesOrderRead(s, w, p, env);
    MarkInfoIsMarkItems(k.order.value.returnInfo, u);
    var before := ReturnItems(k.order.value.returnInfo);
    var after := MarkItems(before, u);
    forall i | 0 <= i < |before|
      ensures before[i].id !in ReturnIds(k.lines) ==> after[i] == before[i]
      ensures before[i].id in ReturnIds(k.lines) ==> Carries(p, before[i], after[i]) {
      MarkItemsAt(before, u, i);
      StatusPointsTo(s, k, p.response, p.pspError, p.payment, before[i].id);
    }
  }

  /** A mobile task that commits its order update replaces the order at the version it has found, and no other. It
      gives every return item it names the transaction of its refund, else the newest refund of the payment it
      read, and leaves their states alone. */
  lemma CommittedMobileStatus(s: State, w: nat, env: Env)
    requires w in s.hooks && s.hooks[w].HookWriteOrder?
    ensures var orders' := Step(s, StepHook(w, env)).orders;
            orders' != s.orders ==> MobileStatusCommitted(s.orders, s.hooks[w], orders')
  {
    MobileCommitMarks(s, w, s.hooks[w], env);
  }

  ghost predicate MobileStatusCommitted(orders: map<string, Versioned<Order>>, h: Hook, orders': map<string,
                                        Versioned<Order>>)
    requires h.HookWriteOrder?
  {
    h.orderId in orders && h.orderId in orders' && orders[h.orderId].version == h.version
    && orders' == orders[h.orderId := Versioned(h.version + 1, orders'[h.orderId].value)]
    && var before := ReturnItems(orders[h.orderId].value.returnInfo);
       var after := ReturnItems(orders'[h.orderId].value.returnInfo);
       |after| == |before|
       && (forall i :: 0 <= i < |before| && before[i].id !in h.returnIds ==> after[i] == before[i])
       && (forall i :: 0 <= i < |before| && before[i].id in h.returnIds
             ==> after[i].state == before[i].state && after[i].transactionId.Some?
                 && ResolvesTo(h.read.value.transactions, Some(h.msg.refund.id), after[i].transactionId.value))
  }

  lemma MobileCommitReplaces(s: State, w: nat, h: Hook, env: Env)
    requires h.HookWriteOrder?
    ensures var orders' := StepHookWriteOrder(s, w, h, env).orders;
            orders' != s.orders
            ==> h.orderId in s.orders && h.orderId in orders' && s.orders[h.orderId].version == h.version
                && orders' == s.orders[h.orderId := Versioned(h.version + 1, orders'[h.orderId].value)]
                && orders'[h.orderId].value.returnInfo
                   == MarkInfo(s.orders[h.orderId].value.returnInfo, HookStatus(h.msg, h.read, h.returnIds))
  {
  }

  lemma MobileCommitMarks(s: State, w: nat, h: Hook, env: Env)
    requires h.HookWriteOrder?
    ensures var orders' := StepHookWriteOrder(s, w, h, env).orders;
            orders' != s.orders ==> MobileStatusCommitted(s.orders, h, orders')
  {
    MobileCommitReplaces(s, w, h, env);
    if h.orderId in s.orders {
      var u := HookStatus(h.msg, h.read, h.returnIds);
      var info := s.orders[h.orderId].value.returnInfo;
      var before := ReturnItems(info);
      MarkInfoIsMarkItems(info, u);
      forall i | 0 <= i < |before|
        ensures before[i].id !in h.returnIds ==> MarkItems(before, u)[i] == before[i]
        ensures before[i].id in h.returnIds
                ==> MarkItems(before, u)[i] == MarkItem(before[i], None, u.transactionId, None) {
        MarkItemsAt(before, u, i);
      }
      ResolveTransactionResolves(h.read.value.transactions, Some(h.msg.refund.id));
    }
  }

  // ----- Losing the race to the webhook -----

  /** The refund the run is about is in the payment, or in what the run has read of it since. */
  ghost predicate SeesRefund(s: State, w: nat, key: string, refund: PspRefund) {
    w in s.pipelines && key in s.payments && HasRefund(TransactionsOf(s, key), Some(refund.id))
    && match s.pipelines[w]
       case RecordTransaction(k, response, _) => k.paymentIntentId == Some(key) && response == RefundResponse(refund)
       case ReadForStatus(k, response, _) => k.paymentIntentId == Some(key) && response == RefundResponse(refund)
       case WriteStatus(_, response, _, payment) => response == RefundResponse(refund)
           && HasRefund(payment.value.transactions, Some(refund.id))
       case TagTransaction(_, _, _) => true
       case Completed => true
       case Crashed => true
       case _ => false
  }

  /** Where a run that is past its call to the provider can go. */
  lemma LateStepEnds(s: State, w: nat, p: Pipeline, env: Env)
    requires p.ReadForStatus? || p.TagTransaction? || p.Completed? || p.Crashed?
    ensures var next := PipelineAt(StepPipelineAt(s, w, p, env), w);
            next.Some?
            ==> next == PipelineAt(s, w) || next.value.Completed? || next.value.Crashed?
                || (p.ReadForStatus? && p.kwargs.paymentIntentId.Some? && p.kwargs.paymentIntentId.value in s.payments
                    && next.value == WriteStatus(p.kwargs, p.response, p.pspError,
                                                 s.payments[p.kwargs.paymentIntentId.value]))
  {
  }

  lemma OwnStepSeesRefund(s: State, w: nat, env: Env, key: string, refund: PspRefund)
    requires Inv(s) && SeesRefund(s, w, key, refund)
    requires var s' := Step(s, StepPipeline(w, env));
             key in s'.payments && HasRefund(TransactionsOf(s', key), Some(refund.id))
    ensures SeesRefund(Step(s, StepPipeline(w, env)), w, key, refund)
  {
    var p := s.pipelines[w];
    assert PipelineOk(s, p);
    PipelineStepOk(s, w, env);
    if p.RecordTransaction? {
      RecordEnds(s, w, p.kwargs, p.response, p.pspError, env);
    } else if p.WriteStatus? {
      WriteStatusEnds(s, w, p.kwargs, p.response, p.pspError, p.payment, env);
    } else {
      LateStepEnds(s, w, p, env);
    }
  }

  lemma StepSeesRefund(s: State, e: Event, w: nat, key: string, refund: PspRefund)
    requires Inv(s) && SeesRefund(s, w, key, refund)
    ensures SeesRefund(Step(s, e), w, key, refund)
  {
    HasRefundLater(s, [e], key, Some(refund.id));
    assert Run(s, [e]) == Step(s, e);
    StepFrame(s, e);
    if e.StepPipeline? && e.pipeline == w {
      OwnStepSeesRefund(s, w, e.env, key, refund);
    } else if !ActsOn(e, w) {
      assert PipelineAt(Step(s, e), w) == PipelineAt(s, w);
    }
  }

  lemma {:induction false} RunSeesRefund(s: State, events: seq<Event>, w: nat, key: string, refund: PspRefund)
    requires Inv(s) && SeesRefund(s, w, key, refund)
    ensures SeesRefund(Run(s, events), w, key, refund)
    decreases |events|
  {
    if events != [] {
      StepSeesRefund(s, events[0], w, key, refund);
      StepKeepsInv(s, events[0]);
      RunSeesRefund(Step(s, events[0]), events[1..], w, key, refund);
    }
  }

  /** The webhook recorded the run's own refund first. Whatever happens then, when the run comes to
      mark the return items it has seen that transaction, and it is the one it will mark them with. */
  lemma LostRaceStillPointsToRefund(start: State, before: seq<Event>, after: seq<Event>, w: nat, key: string,
                                    refund: PspRefund)
    requires Init(start)
    ensures var s, t := Run(start, before), Run(Run(start, before), after);
            key in s.payments && HasRefund(TransactionsOf(s, key), Some(refund.id)) && HasResponse(s, w, key, refund)
            ==> w in t.pipelines && (t.pipelines[w].WriteStatus? ==> WillPointTo(t.pipelines[w], refund))
  {
    var s, t := Run(start, before), Run(Run(start, before), after);
    Reachable(start, before);
    if key in s.payments && HasRefund(TransactionsOf(s, key), Some(refund.id)) && HasResponse(s, w, key, refund) {
      RunSeesRefund(s, after, w, key, refund);
      if t.pipelines[w].WriteStatus? {
        RefundTransactionFound(t.pipelines[w].payment.value.transactions, Some(refund.id));
      }
    }
  }

  /** The run is about to record the refund, or past that step. */
  predicate HasResponse(s: State, w: nat, key: string, refund: PspRefund) {
    w in s.pipelines && (s.pipelines[w].RecordTransaction? || s.pipelines[w].ReadForStatus?)
    && s.pipelines[w].kwargs.paymentIntentId == Some(key) && s.pipelines[w].response == RefundResponse(refund)
  }

  /** The payment the run has read holds the refund, and the transaction it will mark return items with is that
      refund's. */
  ghost predicate WillPointTo(p: Pipeline, refund: PspRefund)
    requires p.WriteStatus?
  {
    var ts := p.payment.value.transactions;
    exists i :: 0 <= i < |ts| && IsRefundOf(ts[i], Some(refund.id))
                && (ts[i].id != "" ==> ResolveTransaction(ts, InteractionId(p.response)) == ts[i].id)
  }

  /** What becomes of a run whose transaction write is refused because the payment has changed: a
      PayPal run raises there; any other goes on to mark the return items, unless the connection
      fails. */
  lemma RefusedWriteEndsPayPalRuns(s: State, w: nat, env: Env)
    requires Inv(s) && w in s.pipelines && s.pipelines[w].RecordTransaction?
    requires var p := s.pipelines[w];
             p.response.RefundResponse? && !p.kwargs.hasBeenRefunded && !p.pspError
             && p.kwargs.paymentIntentId.value in s.payments
             && s.payments[p.kwargs.paymentIntentId.value].version != p.kwargs.paymentData.value.version
    ensures var p := s.pipelines[w];
            var s' := Step(s, StepPipeline(w, env));
            s'.payments == s.payments && s'.recordings == s.recordings && w in s'.pipelines
            && (s'.pipelines[w] == Crashed <==> p.kwargs.psp == Some(PayPal) || (env.fault != NoFault && !env.handled))
            && (s'.pipelines[w] != Crashed ==> s'.pipelines[w] == ReadForStatus(p.kwargs, p.response, false))
  {
    assert PipelineOk(s, s.pipelines[w]);
  }

  lemma RunTwo(s: State, e: Event, e': Event)
    ensures Run(s, [e, e']) == Step(Step(s, e), e')
  {
    assert [e, e'][1..] == [e'];
    assert [e'][1..] == [];
    assert Run(Step(s, e), [e']) == Step(Step(s, e), e');
  }

  lemma {:induction false} LastChargeIsInteraction(ts: seq<Transaction>)
    ensures LastChargeInteraction(ts).Some?
            ==> exists i :: 0 <= i < |ts| && ts[i].interactionId == LastChargeInteraction(ts)
  {
    if ts != [] && ts[|ts| - 1].kind != Charge {
      LastChargeIsInteraction(ts[..|ts| - 1]);
    }
  }

  lemma PayPalRefundCreated(s: State, w: nat, k: Kwargs, refund: PspRefund, env: Env)
    requires w in s.pipelines && s.pipelines[w] == CallStripe(k) && env.answer == Created(refund) && refund.id !in s.psp
    requires k.psp == Some(PayPal) && k.paymentIntentId.Some? && k.amount != 0 && !k.hasBeenRefunded
    requires k.chargeId.Some? && k.chargeId.value != ""
    ensures var t := Run(s, [StepPipeline(w, env), StepPipeline(w, env)]);
            t.payments == s.payments && t.orders == s.orders && t.hooks == s.hooks && t.psp == s.psp + {refund.id}
            && w in t.pipelines && t.pipelines[w] == RecordTransaction(k, RefundResponse(refund), false)
  {
    RunTwo(s, StepPipeline(w, env), StepPipeline(w, env));
    assert Step(s, StepPipeline(w, env)) == Next(s, w, CallPayPal(k, NoResponse, false));
  }

  lemma WebhookRecordsRefund(s: State, v: nat, msg: HookMessage, key: string, env: Env)
    requires v !in s.hooks && msg.refund.id in s.psp && msg.kind == PayPalHook && env.fault == NoFault
             && env.pick == key
    requires key in s.payments && HasInteraction(s.payments[key].value, msg.lookup)
    requires !FullyRefunded(TransactionsOf(s, key)) && !HasRefund(TransactionsOf(s, key), Some(msg.refund.id))
    ensures var t := Run(s, [StartHook(v, msg), StepHook(v, env), StepHook(v, env)]);
            t.pipelines == s.pipelines && t.orders == s.orders && key in t.payments
            && t.payments[key].version == s.payments[key].version + 1
               && HasRefund(TransactionsOf(t, key), Some(msg.refund.id))
  {
    RunThree(s, StartHook(v, msg), StepHook(v, env), StepHook(v, env));
    var s1 := Step(s, StartHook(v, msg));
    assert s1.hooks[v] == HookRead(msg, 0) && Finds(s1, msg, key);
    var s2 := Step(s1, StepHook(v, env));
    assert s2.hooks[v] == HookWrite(msg, 0, key, s.payments[key]);
    var ts := TransactionsOf(Step(s2, StepHook(v, env)), key);
    assert IsRefundOf(ts[|ts| - 1], Some(msg.refund.id));
  }

  lemma UnknownIsNew(s: State, key: string, id: string)
    requires Init(s) && key in s.payments && id !in s.psp
    ensures !HasRefund(TransactionsOf(s, key), Some(id))
  {
    assert RefundsKnown(TransactionsOf(s, key), s.psp);
  }

  lemma StalePayPalRunCrashes(s: State, w: nat, k: Kwargs, refund: PspRefund, env: Env)
    requires w in s.pipelines && s.pipelines[w] == RecordTransaction(k, RefundResponse(refund), false)
    requires k.psp == Some(PayPal) && !k.hasBeenRefunded && k.paymentIntentId.Some? && k.paymentData.Some?
    requires k.paymentIntentId.value in s.payments
    requires s.payments[k.paymentIntentId.value].version != k.paymentData.value.version
    ensures Step(s, StepPipeline(w, env)) == Next(s, w, Crashed)
  {
  }

  /** That loss is reached in every start state with a refundable PayPal payment: PayPal makes the
      refund, its webhook task records it before the run does, and the run ends with an error that
      leaves the order as it was: none of its return items is marked. */
  lemma PayPalRunLosesRace(s: State, w: nat, v: nat, orderId: string, lines: seq<ReturnLine>, ref: PaymentRef,
                           key: string,
                           chargeId: string, refund: PspRefund, env: Env)
    requires Init(s) && orderId in s.orders && key in s.payments
    requires SuccessfulPayment(s.orders[orderId].value.payments) == Some(ref)
    requires ref.interfaceId == Some(key) && ref.psp == PayPal
    requires LastChargeInteraction(TransactionsOf(s, key)) == Some(chargeId) && chargeId != ""
    requires !FullyRefunded(TransactionsOf(s, key)) && refund.id !in s.psp
    requires var o := s.orders[orderId].value;
             AmountFor(o, s.payments[key].value, FilteredIds(ReturnItems(o.returnInfo), CollectLines(lines))) != 0
    requires env.fault == NoFault && env.answer == Created(refund) && env.pick == key
    ensures var e, h := StepPipeline(w, env), StepHook(v, env);
            var called := Run(Run(s, [StartPipeline(w, orderId, lines, map[], true), e, e]), [e, e]);
            var recorded := Run(called, [StartHook(v, HookMessage(PayPalHook, chargeId, refund)), h, h]);
            var end := Step(recorded, e);
            w in end.pipelines && end.pipelines[w] == Crashed && end.orders == s.orders
            && HasRefund(TransactionsOf(end, key), Some(refund.id))
  {
    var e, h := StepPipeline(w, env), StepHook(v, env);
    var msg := HookMessage(PayPalHook, chargeId, refund);
    var k := RunReachesCall(s, w, orderId, lines, map[], ref, key, env);
    var reached := Run(s, [StartPipeline(w, orderId, lines, map[], true), e, e]);
    PayPalRefundCreated(reached, w, k, refund, env);
    var called := Run(reached, [e, e]);
    LastChargeIsInteraction(TransactionsOf(s, key));
    UnknownIsNew(s, key, refund.id);
    assert called.payments == s.payments && v !in called.hooks;
    WebhookRecordsRefund(called, v, msg, key, env);
    var recorded := Run(called, [StartHook(v, msg), h, h]);
    StalePayPalRunCrashes(recorded, w, k, refund, env);
  }
}
