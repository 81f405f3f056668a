/** What a pipeline run achieves when nothing disturbs it: no fault, no conflict, no other client. */
module RefundProgress {
  import opened Wrappers
  import opened Payments
  import opened RefundProtocol
  import opened RefundInvariants
  import opened RefundTheorems
  import opened RefundStatus
  import opened RefundRecords

  // ----- The phases of a run -----

  /** The call to the provider that is the payment's. */
  predicate CanCall(k: Kwargs) {
    && k.paymentIntentId.Some? && k.amount != 0 && !k.hasBeenRefunded
    && (k.psp == Some(Stripe) || (k.psp == Some(PayPal) && k.chargeId.Some? && k.chargeId.value != ""))
  }

  /** Two steps, of which one calls: the answer is what the run goes on with. */
  lemma CallPhase(s: State, w: nat, k: Kwargs, env: Env)
    requires w in s.pipelines && s.pipelines[w] == CallStripe(k) && CanCall(k)
    requires PossibleAnswer(s.psp, env.answer) && !env.answer.Broken?
    ensures var e := StepPipeline(w, env);
            Step(Step(s, e), e)
            == Next(Called(s, w, k, env.answer), w,
                    RecordTransaction(k, ResponseTo(env.answer), env.answer.Failed?))
  {
    var s1 := Step(s, StepPipeline(w, env));
    if k.psp == Some(Stripe) {
      assert s1 == Next(Called(s, w, k, env.answer), w, CallPayPal(k, ResponseTo(env.answer), env.answer.Failed?));
    } else {
      assert s1 == Next(s, w, CallPayPal(k, NoResponse, false));
    }
  }

  /** Without anything left to refund the run makes no call. */
  lemma NoCallPhase(s: State, w: nat, k: Kwargs, env: Env)
    requires w in s.pipelines && s.pipelines[w] == CallStripe(k) && k.hasBeenRefunded && k.amount != 0
    requires k.paymentIntentId.Some? && (k.psp == Some(Stripe) || (k.psp == Some(PayPal) && k.chargeId.Some?
                                                                  && k.chargeId.value != ""))
    ensures var e := StepPipeline(w, env);
            Step(Step(s, e), e) == Next(s, w, RecordTransaction(k, AlreadyRefunded, false))
  {
    var s1 := Step(s, StepPipeline(w, env));
    if k.psp == Some(Stripe) {
      assert s1 == Next(s, w, CallPayPal(k, AlreadyRefunded, false));
    } else {
      assert s1 == Next(s, w, CallPayPal(k, NoResponse, false));
    }
  }

  /** The step that records: the payment has one transaction more. */
  lemma RecordPhase(s: State, w: nat, k: Kwargs, refund: PspRefund, key: string, env: Env)
    requires w in s.pipelines && s.pipelines[w] == RecordTransaction(k, RefundResponse(refund), false)
    requires env.fault == NoFault && !k.hasBeenRefunded && k.paymentIntentId == Some(key) && key in s.payments
    requires k.paymentData == Some(s.payments[key])
    ensures var t := RefundTransaction(env.newId, refund, PipelineCents(k.psp, refund), s.payments[key].value);
            var s' := Step(s, StepPipeline(w, env));
            s'.payments == s.payments[key := Versioned(s.payments[key].version + 1,
                                                       s.payments[key].value.(transactions :=
                                                       s.payments[key].value.transactions + [t]))]
            && s'.orders == s.orders && s'.calls == s.calls
            && s'.pipelines == s.pipelines[w := ReadForStatus(k, RefundResponse(refund), false)]
  {
  }

  /** A run that does not record goes straight on. */
  lemma SkipPhase(s: State, w: nat, k: Kwargs, response: Response, pspError: bool, env: Env)
    requires w in s.pipelines && s.pipelines[w] == RecordTransaction(k, response, pspError)
    requires response.AlreadyRefunded? || k.hasBeenRefunded || pspError
    ensures Step(s, StepPipeline(w, env)) == Next(s, w, ReadForStatus(k, response, pspError))
  {
  }

  /** The order is the one the run has read, and has all the return items of the message. */
  predicate OrderIsCurrent(s: State, k: Kwargs) {
    k.orderId in s.orders && s.orders[k.orderId] == k.order
    && KnowsAll(ReturnItems(k.order.value.returnInfo), ReturnIds(k.lines))
  }

  lemma ReadPhase(s: State, w: nat, k: Kwargs, response: Response, pspError: bool, key: string, env: Env)
    requires w in s.pipelines && s.pipelines[w] == ReadForStatus(k, response, pspError)
    requires env.fault == NoFault && k.paymentIntentId == Some(key) && key in s.payments
    ensures Step(s, StepPipeline(w, env)) == Next(s, w, WriteStatus(k, response, pspError, s.payments[key]))
  {
  }

  lemma WritePhase(s: State, w: nat, k: Kwargs, response: Response, pspError: bool, payment: Versioned<Payment>,
                   env: Env)
    requires w in s.pipelines && s.pipelines[w] == WriteStatus(k, response, pspError, payment)
    requires env.fault == NoFault && OrderIsCurrent(s, k)
    ensures var s' := Step(s, StepPipeline(w, env));
            var tid := StatusOf(k, response, pspError, payment).transactionId;
            s'.payments == s.payments && s'.calls == s.calls && s'.orders != s.orders
            && s'.pipelines == s.pipelines[w := if tid != "" then TagTransaction(k, payment, tid) else Completed]
  {
    var s' := Step(s, StepPipeline(w, env));
    assert s'.orders[k.orderId].version == s.orders[k.orderId].version + 1;
  }

  lemma TagPhase(s: State, w: nat, k: Kwargs, key: string, tid: string, env: Env)
    requires w in s.pipelines && k.paymentIntentId == Some(key) && key in s.payments && env.fault == NoFault
    requires s.pipelines[w] == TagTransaction(k, s.payments[key], tid)
    ensures var s' := Step(s, StepPipeline(w, env));
            var p := s.payments[key];
            var tags := p.value.tags[tid := JoinIds(ReturnIds(k.lines))];
            s'.payments == s.payments[key := Versioned(p.version + 1, p.value.(tags := tags))]
            && s'.orders == s.orders && s'.calls == s.calls && s'.pipelines == s.pipelines[w := Completed]
  {
  }

  /** From reading the payment again to the end: the return items are marked, and the transaction they point to is
      tagged with their ids. */
  lemma MarkingPhase(s: State, w: nat, k: Kwargs, response: Response, pspError: bool, key: string, env: Env)
    requires w in s.pipelines && s.pipelines[w] == ReadForStatus(k, response, pspError) && KwargsOk(s, k)
    requires env.fault == NoFault && k.paymentIntentId == Some(key) && key in s.payments && OrderIsCurrent(s, k)
    ensures var e := StepPipeline(w, env);
            var s' := Thrice(s, e);
            var p := WriteStatus(k, response, pspError, s.payments[key]);
            var tid := ResolveTransaction(TransactionsOf(s, key), InteractionId(response));
            StatusCommitted(s, p, s'.orders) && s'.calls == s.calls && s'.pipelines == s.pipelines[w := Completed]
            && key in s'.payments && TransactionsOf(s', key) == TransactionsOf(s, key)
            && (tid != "" ==> tid in s'.payments[key].value.tags
                              && s'.payments[key].value.tags[tid] == JoinIds(ReturnIds(k.lines)))
  {
    var e := StepPipeline(w, env);
    var p := WriteStatus(k, response, pspError, s.payments[key]);
    ReadPhase(s, w, k, response, pspError, key, env);
    var s1 := Step(s, e);
    WritePhase(s1, w, k, response, pspError, s.payments[key], env);
    CommitMarks(s1, w, p, env);
    var s2 := Step(s1, e);
    LastStep(s2, w, k, key, StatusOf(k, response, pspError, s.payments[key]).transactionId, env);
    assert s2.pipelines[w := Completed] == s.pipelines[w := Completed];
  }

  /** The last step of a run, if there is a transaction to tag. */
  lemma LastStep(s: State, w: nat, k: Kwargs, key: string, tid: string, env: Env)
    requires w in s.pipelines && k.paymentIntentId == Some(key) && key in s.payments && env.fault == NoFault
    requires s.pipelines[w] == if tid != "" then TagTransaction(k, s.payments[key], tid) else Completed
    ensures var t := Step(s, StepPipeline(w, env));
            t.orders == s.orders && t.calls == s.calls && t.pipelines == s.pipelines[w := Completed]
            && key in t.payments && TransactionsOf(t, key) == TransactionsOf(s, key)
            && (tid != "" ==> tid in t.payments[key].value.tags
                              && t.payments[key].value.tags[tid] == JoinIds(ReturnIds(k.lines)))
  {
    if tid != "" {
      TagPhase(s, w, k, key, tid, env);
    } else {
      assert s.pipelines[w := Completed] == s.pipelines;
    }
  }

  // ----- Whole runs -----

  function Thrice(s: State, e: Event): State {
    Step(Step(Step(s, e), e), e)
  }

  /** Nine events: the run is started and takes all its steps. */
  function WholeRun(s: State, start: Event, e: Event): State {
    Thrice(Thrice(Run(s, [start, e, e]), e), e)
  }

  /** A start state with a run to be made: the order is paid with a payment of Stripe or PayPal that succeeded, and
      has all the return items of the message. */
  predicate Payable(s: State, orderId: string, lines: seq<ReturnLine>, i: int, key: string) {
    && orderId in s.orders && key in s.payments
    && var o := s.orders[orderId].value;
       FirstEligible(o.payments, i) && o.payments[i].interfaceId == Some(key)
       && KnowsAll(ReturnItems(o.returnInfo), ReturnIds(CollectLines(lines)))
       && (o.payments[i].psp == Stripe
           || (o.payments[i].psp == PayPal && LastChargeInteraction(TransactionsOf(s, key)).Some?
               && LastChargeInteraction(TransactionsOf(s, key)).value != ""))
  }

  /** What is left to refund of the line items of the message. */
  function AmountLeft(s: State, orderId: string, lines: seq<ReturnLine>, key: string): int
    requires orderId in s.orders && key in s.payments
  {
    var o := s.orders[orderId].value;
    AmountFor(o, s.payments[key].value, FilteredIds(ReturnItems(o.returnInfo), CollectLines(lines)))
  }

  /** The message names the return item. */
  predicate Names(lines: seq<ReturnLine>, id: string) {
    exists j :: 0 <= j < |lines| && lines[j].returnId == id
  }

  /** Every return item that the message names has the state, the entitlement the message gives it, and the
      transaction: the one recorded for its line item, or this one. No other item has changed. */
  ghost predicate ItemsMarked(before: seq<ReturnItem>, after: seq<ReturnItem>, lines: seq<ReturnLine>,
                              entitlements: map<string, string>, state: ReturnState, transactionId: string) {
    |after| == |before|
    && forall i :: 0 <= i < |before| ==>
         if Names(lines, before[i].id) then
           ItemMarked(before, before[i], after[i], lines, entitlements, state, transactionId)
         else after[i] == before[i]
  }

  ghost predicate ItemMarked(items: seq<ReturnItem>, before: ReturnItem, after: ReturnItem, lines: seq<ReturnLine>,
                             entitlements: map<string, string>, state: ReturnState, transactionId: string) {
    after.id == before.id && after.lineItemId == before.lineItemId && after.state == state
    && after.entitlementId == (if before.id in entitlements && entitlements[before.id] != ""
                               then Some(entitlements[before.id]) else None)
    && (forall j :: LastRecordedLine(items, lines, before.id, j)
                    ==> after.transactionId == RecordedTransaction(items, lines[j].lineItemId))
    && ((forall j :: !RecordedLine(items, lines, before.id, j)) ==> after.transactionId == Some(transactionId))
  }

  /** The newest refund is unambiguous: it stands for the items when the run has none of its own. */
  ghost predicate SettlesOn(payment: Payment, interactionId: Option<string>, transactionId: string) {
    forall id :: ResolvesTo(payment.transactions, interactionId, id) ==> id == transactionId
  }

  lemma MarkedBy(s: State, p: Pipeline, orders': map<string, Versioned<Order>>, transactionId: string)
    requires p.WriteStatus? && StatusCommitted(s, p, orders')
    requires SettlesOn(p.payment.value, InteractionId(p.response), transactionId)
    ensures ItemsMarked(ReturnItems(p.kwargs.order.value.returnInfo),
                        ReturnItems(orders'[p.kwargs.orderId].value.returnInfo), p.kwargs.lines, p.kwargs.entitlements,
                        if p.pspError then NotRefunded else Refunded, transactionId)
  {
    var before := ReturnItems(p.kwargs.order.value.returnInfo);
    var after := ReturnItems(orders'[p.kwargs.orderId].value.returnInfo);
    ReturnIdsAre(p.kwargs.lines);
    forall i | 0 <= i < |before|
      ensures if Names(p.kwargs.lines, before[i].id)
              then ItemMarked(before, before[i], after[i], p.kwargs.lines, p.kwargs.entitlements,
                              if p.pspError then NotRefunded else Refunded, transactionId)
              else after[i] == before[i] {
      assert Names(p.kwargs.lines, before[i].id) <==> before[i].id in ReturnIds(p.kwargs.lines);
      if before[i].id in ReturnIds(p.kwargs.lines) { assert Carries(p, before[i], after[i]); }
    }
  }

  /** After a refund was recorded, it is the one that counts. */
  lemma NewRefundSettles(ts: seq<Transaction>, t: Transaction, p: Payment)
    requires t.kind == Refund && t.interactionId.Some? && !HasRefund(ts, t.interactionId) && t.id != ""
    requires p.transactions == ts + [t]
    ensures SettlesOn(p, t.interactionId, t.id) && ResolveTransaction(p.transactions, t.interactionId) == t.id
  {
    assert IsRefundOf(p.transactions[|ts|], t.interactionId);
    assert forall k :: 0 <= k < |ts| ==> p.transactions[k] == ts[k];
    assert forall k :: 0 <= k < |p.transactions| && IsRefundOf(p.transactions[k], t.interactionId) ==> k == |ts|;
    RefundTransactionFound(p.transactions, t.interactionId);
  }

  /** The refund as it is recorded: with its amount, up to the cent that PayPal's floats may lose. */
  ghost predicate RecordedAs(t: Transaction, id: string, refund: PspRefund, psp: Psp, p: Payment) {
    t.id == id && Describes(t, refund, p) && (psp != PayPal ==> t.cents == refund.cents)
    && (psp == PayPal ==> PayPalAmount(t.cents, refund.cents))
  }

  lemma RecordedTransactionAs(id: string, refund: PspRefund, psp: Psp, p: Payment)
    ensures RecordedAs(RefundTransaction(id, refund, PipelineCents(Some(psp), refund), p), id, refund, psp, p)
  {
    TransactionDescribes(id, refund, PipelineCents(Some(psp), refund), p);
    PayPalCentsAre(refund.cents);
  }

  /** What an undisturbed run with a refund to make leaves behind. */
  ghost predicate Refunds(s: State, t: State, w: nat, orderId: string, lines: seq<ReturnLine>,
                          entitlements: map<string, string>, psp: Psp, key: string, refund: PspRefund, newId: string)
    requires orderId in s.orders && key in s.payments
  {
    var o := s.orders[orderId].value;
    var filtered := FilteredIds(ReturnItems(o.returnInfo), CollectLines(lines));
    && w in t.pipelines && t.pipelines[w] == Completed && orderId in t.orders && key in t.payments
    && t.calls == s.calls + [PspCall(w, key, AmountLeft(s, orderId, lines, key), o, filtered)]
    && (exists tr :: TransactionsOf(t, key) == TransactionsOf(s, key) + [tr]
                     && RecordedAs(tr, newId, refund, psp, s.payments[key].value))
    && ItemsMarked(ReturnItems(o.returnInfo), ReturnItems(t.orders[orderId].value.returnInfo), CollectLines(lines),
                   entitlements, Refunded, newId)
    && newId in t.payments[key].value.tags
    && t.payments[key].value.tags[newId] == JoinIds(ReturnIds(CollectLines(lines)))
  }

  /** The first half of a run, after its reads: one call, and its refund recorded. */
  lemma RecordingHalf(s: State, w: nat, k: Kwargs, refund: PspRefund, key: string, env: Env)
    requires w in s.pipelines && s.pipelines[w] == CallStripe(k) && CanCall(k) && k.paymentIntentId == Some(key)
    requires key in s.payments && k.paymentData == Some(s.payments[key])
    requires env.fault == NoFault && env.answer == Created(refund) && refund.id !in s.psp
    ensures var t := Thrice(s, StepPipeline(w, env));
            var p := s.payments[key];
            var tr := RefundTransaction(env.newId, refund, PipelineCents(k.psp, refund), p.value);
            t.payments == s.payments[key := Versioned(p.version + 1,
                                                      p.value.(transactions := p.value.transactions + [tr]))]
            && t.orders == s.orders && t.calls == s.calls + [CallOf(w, k)] && t.psp == s.psp + {refund.id}
            && t.pipelines == s.pipelines[w := ReadForStatus(k, RefundResponse(refund), false)]
  {
    var e := StepPipeline(w, env);
    CallPhase(s, w, k, env);
    RecordPhase(Step(Step(s, e), e), w, k, refund, key, env);
    RecordingKeepsPsp(Step(Step(s, e), e), w, env);
    assert Step(Step(s, e), e).pipelines[w := ReadForStatus(k, RefundResponse(refund), false)]
        == s.pipelines[w := ReadForStatus(k, RefundResponse(refund), false)];
  }

  lemma RecordingKeepsPsp(s: State, w: nat, env: Env)
    requires w in s.pipelines && s.pipelines[w].RecordTransaction?
    ensures Step(s, StepPipeline(w, env)).psp == s.psp
  {
  }

  /** The second half: the return items are marked with the transaction that was recorded, which is tagged. */
  lemma MarkingHalf(s: State, w: nat, k: Kwargs, response: Response, pspError: bool, key: string, tid: string, env: Env)
    requires w in s.pipelines && s.pipelines[w] == ReadForStatus(k, response, pspError) && KwargsOk(s, k)
    requires env.fault == NoFault && k.paymentIntentId == Some(key) && key in s.payments && OrderIsCurrent(s, k)
    requires SettlesOn(s.payments[key].value, InteractionId(response), tid)
             && ResolveTransaction(TransactionsOf(s, key), InteractionId(response)) == tid
    ensures var t := Thrice(s, StepPipeline(w, env));
            t.calls == s.calls && t.pipelines == s.pipelines[w := Completed]
            && key in t.payments && TransactionsOf(t, key) == TransactionsOf(s, key)
            && (tid != "" ==> tid in t.payments[key].value.tags
                              && t.payments[key].value.tags[tid] == JoinIds(ReturnIds(k.lines)))
            && k.orderId in t.orders
            && ItemsMarked(ReturnItems(k.order.value.returnInfo), ReturnItems(t.orders[k.orderId].value.returnInfo),
                           k.lines, k.entitlements, if pspError then NotRefunded else Refunded, tid)
  {
    MarkingPhase(s, w, k, response, pspError, key, env);
    MarkedBy(s, WriteStatus(k, response, pspError, s.payments[key]), Thrice(s, StepPipeline(w, env)).orders, tid);
  }

  /** A run with a payable order comes to its calls with all it has read. */
  lemma RunIsReady(s: State, w: nat, orderId: string, lines: seq<ReturnLine>, entitlements: map<string, string>, i: int,
                   key: string, env: Env) returns (k: Kwargs)
    requires Init(s) && Payable(s, orderId, lines, i, key) && env.fault == NoFault
    ensures var e := StepPipeline(w, env);
            Run(s, [StartPipeline(w, orderId, lines, entitlements, true), e, e]) == Next(s, w, CallStripe(k))
            && HasRead(k, s, orderId, lines, entitlements, s.orders[orderId].value.payments[i], key)
            && KwargsOk(Next(s, w, CallStripe(k)), k)
  {
    var ref := s.orders[orderId].value.payments[i];
    SuccessfulPaymentIs(s.orders[orderId].value.payments, ref);
    k := RunReachesCall(s, w, orderId, lines, entitlements, ref, key, env);
    RunKeepsInv(s, [StartPipeline(w, orderId, lines, entitlements, true), StepPipeline(w, env), StepPipeline(w, env)]);
    ReadyAt(Next(s, w, CallStripe(k)), w);
  }

  /** From every start state with a refundable payment of Stripe or PayPal: a run that nothing disturbs asks the
      provider once for what is left to refund, records the refund the provider creates, marks every return item
      that the message names as refunded with that transaction, tags it with their ids, and completes. */
  lemma UndisturbedRunRefunds(s: State, w: nat, orderId: string, lines: seq<ReturnLine>,
                              entitlements: map<string, string>, i: int, key: string, refund: PspRefund, newId: string)
    requires Init(s) && Payable(s, orderId, lines, i, key)
    requires !FullyRefunded(TransactionsOf(s, key)) && AmountLeft(s, orderId, lines, key) != 0
    requires refund.id !in s.psp && newId != ""
    ensures var e := StepPipeline(w, Env(NoFault, true, Created(refund), newId, ""));
            Refunds(s, WholeRun(s, StartPipeline(w, orderId, lines, entitlements, true), e), w, orderId, lines,
                    entitlements, s.orders[orderId].value.payments[i].psp, key, refund, newId)
  {
    var env := Env(NoFault, true, Created(refund), newId, "");
    var start, e := StartPipeline(w, orderId, lines, entitlements, true), StepPipeline(w, env);
    var k := RunIsReady(s, w, orderId, lines, entitlements, i, key, env);
    var s1 := Next(s, w, CallStripe(k));
    RecordingHalf(s1, w, k, refund, key, env);
    var s2 := Thrice(s1, e);
    KwargsLater(s1, s2, k, key);
    var tr := RefundTransaction(newId, refund, PipelineCents(k.psp, refund), s.payments[key].value);
    RecordedTransactionAs(newId, refund, s.orders[orderId].value.payments[i].psp, s.payments[key].value);
    UnknownIsNew(s, key, refund.id);
    NewRefundSettles(TransactionsOf(s, key), tr, s2.payments[key].value);
    MarkingHalf(s2, w, k, RefundResponse(refund), false, key, newId, env);
  }

  /** When the provider answers with an error, nothing is recorded and the return items are marked as not refunded. */
  lemma FailedCallMarksNotRefunded(s: State, w: nat, orderId: string, lines: seq<ReturnLine>,
                                   entitlements: map<string, string>, i: int, key: string, ids: set<string>,
                                       newId: string)
    requires Init(s) && Payable(s, orderId, lines, i, key)
    requires !FullyRefunded(TransactionsOf(s, key)) && AmountLeft(s, orderId, lines, key) != 0
    ensures var e := StepPipeline(w, Env(NoFault, true, Failed(ids), newId, ""));
            var t := WholeRun(s, StartPipeline(w, orderId, lines, entitlements, true), e);
            |t.calls| == |s.calls| + 1 && OnlyMarked(s, t, w, orderId, lines, entitlements, key, NoResponse, true)
  {
    var env := Env(NoFault, true, Failed(ids), newId, "");
    var k := RunIsReady(s, w, orderId, lines, entitlements, i, key, env);
    var s1 := Next(s, w, CallStripe(k));
    var e := StepPipeline(w, env);
    CallPhase(s1, w, k, env);
    SkipPhase(Step(Step(s1, e), e), w, k, NoResponse, true, env);
    KwargsLater(s1, Thrice(s1, e), k, key);
    MarkOnly(s, Thrice(s1, e), w, k, orderId, lines, entitlements, NoResponse, true, key, env);
  }

  /** When the payment counts as fully refunded, no call is made and nothing recorded, and the return items are
      marked as refunded. */
  lemma RefundedRunOnlyMarks(s: State, w: nat, orderId: string, lines: seq<ReturnLine>,
                             entitlements: map<string, string>, i: int, key: string, env: Env)
    requires Init(s) && Payable(s, orderId, lines, i, key) && env.fault == NoFault
    requires FullyRefunded(TransactionsOf(s, key)) && AmountLeft(s, orderId, lines, key) != 0
    ensures var t := WholeRun(s, StartPipeline(w, orderId, lines, entitlements, true), StepPipeline(w, env));
            t.calls == s.calls && OnlyMarked(s, t, w, orderId, lines, entitlements, key, AlreadyRefunded, false)
  {
    var k := RunIsReady(s, w, orderId, lines, entitlements, i, key, env);
    var s1 := Next(s, w, CallStripe(k));
    var e := StepPipeline(w, env);
    NoCallPhase(s1, w, k, env);
    SkipPhase(Step(Step(s1, e), e), w, k, AlreadyRefunded, false, env);
    KwargsLater(s1, Thrice(s1, e), k, key);
    MarkOnly(s, Thrice(s1, e), w, k, orderId, lines, entitlements, AlreadyRefunded, false, key, env);
  }

  /** The second half of such a run. */
  lemma MarkOnly(s: State, u: State, w: nat, k: Kwargs, orderId: string, lines: seq<ReturnLine>,
                 entitlements: map<string, string>, response: Response, pspError: bool, key: string, env: Env)
    requires u.payments == s.payments && u.orders == s.orders && key in s.payments && orderId in s.orders
    requires w in u.pipelines && u.pipelines[w] == ReadForStatus(k, response, pspError) && KwargsOk(u, k)
    requires env.fault == NoFault && k.paymentIntentId == Some(key) && OrderIsCurrent(u, k)
    requires k.orderId == orderId && k.lines == CollectLines(lines) && k.entitlements == entitlements
    ensures var t := Thrice(u, StepPipeline(w, env));
            t.calls == u.calls && OnlyMarked(s, t, w, orderId, lines, entitlements, key, response, pspError)
  {
    MarkingPhase(u, w, k, response, pspError, key, env);
    var t := Thrice(u, StepPipeline(w, env));
    CommittedAlike(u, s, WriteStatus(k, response, pspError, s.payments[key]), t.orders);
  }

  /** Of the state before, what was committed depends on the orders only. */
  lemma CommittedAlike(s: State, s': State, p: Pipeline, orders': map<string, Versioned<Order>>)
    requires p.WriteStatus? && s'.orders == s.orders && StatusCommitted(s, p, orders')
    ensures StatusCommitted(s', p, orders')
  {
  }

  /** The run completes; no transaction is added, and the order is marked as the response asks for. */
  ghost predicate OnlyMarked(s: State, t: State, w: nat, orderId: string, lines: seq<ReturnLine>,
                             entitlements: map<string, string>, key: string, response: Response, pspError: bool)
    requires orderId in s.orders && key in s.payments
  {
    && w in t.pipelines && t.pipelines[w] == Completed && key in t.payments
    && TransactionsOf(t, key) == TransactionsOf(s, key)
    && exists k: Kwargs :: k.orderId == orderId && k.order == s.orders[orderId] && k.lines == CollectLines(lines)
                           && k.entitlements == entitlements
                           && StatusCommitted(s, WriteStatus(k, response, pspError, s.payments[key]), t.orders)
  }

  /** An order without such a payment: the run completes and changes nothing. */
  lemma UnpaidOrderCompletes(s: State, w: nat, orderId: string, lines: seq<ReturnLine>,
                             entitlements: map<string, string>, env: Env)
    requires Init(s) && orderId in s.orders && env.fault == NoFault
    requires var refs := s.orders[orderId].value.payments; forall i :: 0 <= i < |refs| ==> !Eligible(refs[i])
    ensures WholeRun(s, StartPipeline(w, orderId, lines, entitlements, true), StepPipeline(w, env))
            == Next(s, w, Completed)
  {
    var start, e := StartPipeline(w, orderId, lines, entitlements, true), StepPipeline(w, env);
    SuccessfulPaymentIs(s.orders[orderId].value.payments, PaymentRef(true, None, OtherPsp));
    RunThree(s, start, e, e);
    var s1 := Step(s, start);
    var s2 := Step(s1, e);
    assert s2.pipelines[w].CallStripe?;
    var k := s2.pipelines[w].kwargs;
    assert Step(s2, e) == Next(s, w, CallPayPal(k, NoResponse, false));
    UnpaidEnds(Next(s, w, CallPayPal(k, NoResponse, false)), w, k, env);
    assert s.pipelines[w := CallPayPal(k, NoResponse, false)][w := Completed] == s.pipelines[w := Completed];
    assert Step(Next(s, w, Completed), e) == Next(s, w, Completed);
  }

  lemma UnpaidEnds(s: State, w: nat, k: Kwargs, env: Env)
    requires w in s.pipelines && s.pipelines[w] == CallPayPal(k, NoResponse, false)
    requires k.psp == None && k.paymentIntentId == None && k.paymentData == None && !k.hasBeenRefunded
    ensures Thrice(s, StepPipeline(w, env)) == Next(s, w, Completed)
  {
    var e := StepPipeline(w, env);
    assert Step(s, e) == Next(s, w, RecordTransaction(k, NoResponse, false));
    var s2 := Step(Step(s, e), e);
    assert s2 == Next(s, w, ReadForStatus(k, NoResponse, false));
    assert Step(s2, e) == Next(s, w, Completed);
  }

  // ----- What disturbs a run -----

  /** A request that fails at a stage without error handling ends the run, whatever the error; such are all stages but
      the calls and the recording. */
  lemma FaultEndsRun(s: State, w: nat, env: Env)
    requires w in s.pipelines && env.fault != NoFault
    ensures var p := s.pipelines[w];
            var t := Step(s, StepPipeline(w, env));
            p.FetchOrder? || p.FetchPayment? || p.LookUpPayment? || p.WriteStatus? || p.TagTransaction?
            || (p.ReadForStatus? && (p.kwargs.paymentIntentId.Some? || p.kwargs.psp.Some?))
            ==> w in t.pipelines && t.pipelines[w] == Crashed && t.calls == s.calls
  {
    var p := s.pipelines[w];
    if p.WriteStatus? { WriteStatusEnds(s, w, p.kwargs, p.response, p.pspError, p.payment, env); }
  }

  /** A run ends at once when what it has to read is not there: an order of another system or an unknown one, or a
      payment that does not exist. */
  lemma MissingDataEndsRun(s: State, w: nat, env: Env)
    requires w in s.pipelines && env.fault == NoFault
    ensures var p := s.pipelines[w];
            (p.FetchOrder? && (!p.managed || p.orderId !in s.orders))
            || ((p.FetchPayment? || p.ReadForStatus?) && p.kwargs.paymentIntentId.Some?
                && p.kwargs.paymentIntentId.value !in s.payments)
            ==> Step(s, StepPipeline(w, env)) == Next(s, w, Crashed)
  {
  }

  /** An answer that is no refund and no error ends the run when it comes to record: nothing is recorded or marked. So
      does an error of Stripe that the code does not catch. */
  lemma UnsuccessfulRefundEndsRun(s: State, w: nat, k: Kwargs, env: Env)
    requires w in s.pipelines && s.pipelines[w] == CallStripe(k) && CanCall(k) && k.paymentData.Some?
    requires env.answer.Unsuccessful? || (env.answer.Broken? && k.psp == Some(Stripe))
    ensures var t := Thrice(s, StepPipeline(w, env));
            t.payments == s.payments && t.orders == s.orders && t.recordings == s.recordings
            && t.calls == s.calls + [CallOf(w, k)] && w in t.pipelines && t.pipelines[w] == Crashed
  {
    var e := StepPipeline(w, env);
    if env.answer.Unsuccessful? {
      CallPhase(s, w, k, env);
      assert Step(Step(s, e), e).pipelines[w] == RecordTransaction(k, NoResponse, false);
    } else {
      var s1 := Step(s, e);
      assert s1 == Next(Called(s, w, k, env.answer), w, Crashed);
      assert Step(s1, e) == s1;
    }
  }

  /** A write under a version that is no longer current is refused, changes nothing and ends the run. */
  lemma ConflictEndsMarking(s: State, w: nat, env: Env)
    requires w in s.pipelines && (s.pipelines[w].WriteStatus? || s.pipelines[w].TagTransaction?)
    requires var p := s.pipelines[w];
             (p.WriteStatus? ==> p.kwargs.orderId in s.orders
                                 && s.orders[p.kwargs.orderId].version != p.kwargs.order.version)
             && (p.TagTransaction? ==> p.kwargs.paymentIntentId.Some? && p.kwargs.paymentIntentId.value in s.payments
                                       && s.payments[p.kwargs.paymentIntentId.value].version != p.payment.version)
    ensures Step(s, StepPipeline(w, env)) == Next(s, w, Crashed)
  {
  }

  lemma ReadyAt(s: State, w: nat)
    requires Inv(s) && w in s.pipelines && s.pipelines[w].CallStripe?
    ensures KwargsOk(s, s.pipelines[w].kwargs)
  {
    assert PipelineOk(s, s.pipelines[w]);
  }

  lemma KwargsLater(s: State, s': State, k: Kwargs, key: string)
    requires KwargsOk(s, k) && s'.orders == s.orders && s.psp <= s'.psp && key in s.payments && key in s'.payments
    requires s'.payments == s.payments
             || s'.payments == s.payments[key := Versioned(s.payments[key].version + 1, s'.payments[key].value)]
    ensures KwargsOk(s', k)
  {
    KwargsOkLater(s, s', k);
  }
}
