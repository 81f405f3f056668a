/**
 What pipeline runs ask the payment provider for. `CallsAskForUnrefundedShare` says what every call
 asks for, `FullRefundIsFinal` when no call is made any more; the rest of the module proves the two.
 A call is made by a run that stands at `CallStripe` or `CallPayPal`, from arguments the two reading
 steps before it have put together, so both results come down to what those arguments say when the
 run gets there.
 */
module RefundCalls {
  import opened Wrappers
  import opened Payments
  import opened RefundProtocol
  import opened RefundInvariants
  import opened RefundTheorems
  import opened FloatAmounts
  import RefundArithmetic
  import RefundDecimals

  /** Once recorded refunds equal recorded charges, the transactions are final until a new charge:
      nothing in flight and nothing started later adds to them, and a pipeline run that reads the
      payment from then on makes no call to the provider for it. */
  lemma FullRefundIsFinal(start: State, before: seq<Event>, after: seq<Event>, key: string, w: nat)
    requires Init(start) && NoChargeFor(after, key)
    ensures var s, t := Run(start, before), Run(Run(start, before), after);
            key in s.payments && FullyRefunded(TransactionsOf(s, key))
            ==> TransactionsOf(t, key) == TransactionsOf(s, key)
                && (w !in s.pipelines || s.pipelines[w].FetchOrder? || s.pipelines[w].FetchPayment?
                    ==> NoCall(t.calls, |s.calls|, w, key))
  {
    var s := Run(start, before);
    Reachable(start, before);
    if key in s.payments && FullyRefunded(TransactionsOf(s, key)) {
      RunKeepsFull(s, after, key, w, |s.calls|);
    }
  }

  ghost predicate NoChargeFor(events: seq<Event>, key: string) {
    forall i, t :: 0 <= i < |events| ==> events[i] != ChargeElsewhere(key, t)
  }

  ghost predicate NoCall(calls: seq<PspCall>, from: nat, w: nat, key: string) {
    forall i :: from <= i < |calls| ==> !(calls[i].pipeline == w && calls[i].key == key)
  }

  /** A refund that failed blocks all others. From every start state with a payment that has one charge: a
      webhook task reports a refund of the whole charge that has failed, and records it; from then on the payment
      counts as fully refunded, so that, until there is a new charge, no run asks for a refund and no task records
      one. */
  lemma FailedRefundBlocksRefunds(start: State, v: nat, msg: HookMessage, key: string, charge: Transaction, env: Env,
                                  after: seq<Event>, w: nat)
    requires Init(start) && key in start.payments && TransactionsOf(start, key) == [charge] && charge.kind == Charge
    requires charge.cents > 0 && charge.fractionDigits == start.payments[key].value.fractionDigits
    requires msg.kind == StripeHook && msg.lookup == key && msg.refund.id in start.psp
    requires msg.refund.cents == charge.cents && msg.refund.status == "failed"
    requires env.fault == NoFault && env.pick == key && NoChargeFor(after, key)
    ensures var s := Run(start, [StartHook(v, msg), StepHook(v, env), StepHook(v, env)]);
            var t := Run(s, after);
            |TransactionsOf(s, key)| == 2 && TransactionsOf(s, key)[0] == charge
            && TransactionsOf(s, key)[1].kind == Refund && TransactionsOf(s, key)[1].state == TransactionFailure
            && TransactionsOf(t, key) == TransactionsOf(s, key) && NoCall(t.calls, 0, w, key)
  {
    var h := [StartHook(v, msg), StepHook(v, env), StepHook(v, env)];
    var s := Run(start, h);
    FailedRefundRecorded(start, v, msg, key, charge, env);
    FullRefundIsFinal(start, h, after, key, w);
  }

  lemma FailedRefundRecorded(start: State, v: nat, msg: HookMessage, key: string, charge: Transaction, env: Env)
    requires Init(start) && key in start.payments && TransactionsOf(start, key) == [charge] && charge.kind == Charge
    requires charge.cents > 0 && charge.fractionDigits == start.payments[key].value.fractionDigits
    requires msg.kind == StripeHook && msg.lookup == key && msg.refund.id in start.psp
    requires msg.refund.cents == charge.cents && msg.refund.status == "failed"
    requires env.fault == NoFault && env.pick == key
    ensures var s := Run(start, [StartHook(v, msg), StepHook(v, env), StepHook(v, env)]);
            var refund := HookTransaction(env.newId, msg, start.payments[key].value);
            key in s.payments && TransactionsOf(s, key) == [charge, refund] && FullyRefunded([charge, refund])
            && refund.kind == Refund && refund.state == TransactionFailure
            && s.pipelines == map[] && s.calls == []
  {
    var refund := HookTransaction(env.newId, msg, start.payments[key].value);
    RunThree(start, StartHook(v, msg), StepHook(v, env), StepHook(v, env));
    ChargeIsNotFull(charge);
    assert !HasRefund([charge], Some(msg.refund.id));
    var s1 := Step(start, StartHook(v, msg));
    assert s1.hooks[v] == HookRead(msg, 0) && Finds(s1, msg, key);
    var s2 := Step(s1, StepHook(v, env));
    assert s2.hooks[v] == HookWrite(msg, 0, key, start.payments[key]);
    assert [charge] + [refund] == [charge, refund];
    FailedStatus();
    WholeRefundIsFull(charge, refund);
  }

  lemma FailedStatus()
    ensures TranslateStatus("failed") == TransactionFailure
  {
    var s := "failed";
    assert s[1..] == "ailed" && s[1..][1..] == "iled" && s[1..][1..][1..] == "led";
    assert Lower("led") == "led";
  }

  /** Every call to the provider, in every run: it asks for the share of line items that the order, as
      the run read it, does not show as refunded, for a payment the run did not see fully refunded,
      and, where line totals add up, for something between nothing and the planned amount that is within
      half a minor unit of their exact share. */
  lemma CallsAskForUnrefundedShare(start: State, events: seq<Event>, w: nat, env: Env)
    requires Init(start)
    ensures var s := Run(start, events);
            w in s.pipelines && Step(s, StepPipeline(w, env)).calls != s.calls ==> FairCall(s, w, env)
  {
    var s := Run(start, events);
    Reachable(start, events);
    RunKeepsAmounts(start, events);
    if w in s.pipelines {
      CallIsFair(s, w, env);
    }
  }

  ghost predicate FairCall(s: State, w: nat, env: Env) {
    w in s.pipelines && (s.pipelines[w].CallStripe? || s.pipelines[w].CallPayPal?)
    && var k := s.pipelines[w].kwargs;
       k.paymentIntentId.Some? && k.paymentData.Some?
       && Step(s, StepPipeline(w, env)).calls == s.calls + [CallOf(w, k)]
       && k.amount != 0 && k.amount == AmountFor(k.order.value, k.paymentData.value.value, k.filtered)
       && k.filtered == FilteredIds(ReturnItems(k.order.value.returnInfo), k.lines)
       && !FullyRefunded(k.paymentData.value.value.transactions)
       && FairAmount(k.order.value, k.paymentData.value.value, k.filtered, k.amount)
  }

  ghost predicate FairAmount(o: Order, p: Payment, ids: seq<string>, amount: int) {
    RefundArithmetic.Priced(o.lineItems, o.totalCents) && o.totalCents > 0 && p.amountPlanned >= 0
    ==> 0 <= amount <= p.amountPlanned
        && (RefundDecimals.Precise(o.lineItems, o.totalCents, p.amountPlanned)
            ==> RefundDecimals.IsNearest(amount, RefundArithmetic.SumTotals(o.lineItems, ids) * p.amountPlanned,
                                         o.totalCents))
  }

  // ----- The steps that call -----

  lemma StepCalls(s: State, e: Event)
    requires Inv(s)
    ensures var s' := Step(s, e);
            s'.calls == s.calls
            || (e.StepPipeline? && exists c: PspCall :: c.pipeline == e.pipeline && s'.calls == s.calls + [c])
  {
    StepFrame(s, e);
    if e.StepPipeline? && e.pipeline in s.pipelines {
      var p := s.pipelines[e.pipeline];
      assert PipelineOk(s, p);
      if p.CallStripe? || p.CallPayPal? {
        CallAppends(s, e.pipeline, e.env);
      } else {
        OnlyCallStepsCall(s, e.pipeline, p, e.env);
      }
    }
  }

  lemma CallAppends(s: State, w: nat, env: Env)
    requires w in s.pipelines && PipelineOk(s, s.pipelines[w])
    requires s.pipelines[w].CallStripe? || s.pipelines[w].CallPayPal?
    ensures var s', k := StepPipelineAt(s, w, s.pipelines[w], env), s.pipelines[w].kwargs;
            s'.calls == s.calls
            || (k.paymentIntentId.Some? && !k.hasBeenRefunded && k.amount != 0
               && s'.calls == s.calls + [CallOf(w, k)])
  {
  }

  lemma OnlyCallStepsCall(s: State, w: nat, p: Pipeline, env: Env)
    requires !p.CallStripe? && !p.CallPayPal?
    ensures StepPipelineAt(s, w, p, env).calls == s.calls
  {
  }

  // ----- The amount a call asks for -----

  ghost predicate AmountOk(p: Pipeline) {
    (p.CallStripe? || p.CallPayPal?) && p.kwargs.paymentData.Some?
    ==> p.kwargs.amount == AmountFor(p.kwargs.order.value, p.kwargs.paymentData.value.value, p.kwargs.filtered)
  }

  ghost predicate AmountsOk(s: State) {
    forall w: nat :: w in s.pipelines ==> AmountOk(s.pipelines[w])
  }

  /** Where a step to one of the calls comes from. */
  lemma CallsComeFrom(s: State, w: nat, p: Pipeline, env: Env)
    requires w in s.pipelines && s.pipelines[w] == p && PipelineOk(s, p)
    ensures var next := PipelineAt(StepPipelineAt(s, w, p, env), w);
            next.Some? && (next.value.CallStripe? || next.value.CallPayPal?)
            ==> p.FetchOrder? || p.FetchPayment? || ((p.CallStripe? || p.CallPayPal?) && next.value.kwargs == p.kwargs)
  {
    if p.WriteStatus? {
      WriteStatusEnds(s, w, p.kwargs, p.response, p.pspError, p.payment, env);
    } else if p.RecordTransaction? {
      RecordEnds(s, w, p.kwargs, p.response, p.pspError, env);
    }
  }

  lemma FetchedAmountOk(s: State, w: nat, p: Pipeline, env: Env)
    requires p.FetchOrder? || p.FetchPayment?
    ensures var next := PipelineAt(StepPipelineAt(s, w, p, env), w); next.Some? ==> AmountOk(next.value)
  {
  }

  lemma StepKeepsAmounts(s: State, e: Event)
    requires Inv(s) && AmountsOk(s)
    ensures AmountsOk(Step(s, e))
  {
    var s' := Step(s, e);
    StepFrame(s, e);
    forall w: nat | w in s'.pipelines ensures AmountOk(s'.pipelines[w]) {
      if PipelineAt(s', w) == PipelineAt(s, w) {
        assert AmountOk(s.pipelines[w]);
      } else if e.StepPipeline? {
        assert AmountOk(s.pipelines[w]);
        CallsComeFrom(s, w, s.pipelines[w], e.env);
        if s.pipelines[w].FetchOrder? || s.pipelines[w].FetchPayment? {
          FetchedAmountOk(s, w, s.pipelines[w], e.env);
        }
        assert PipelineAt(s', w) == Some(s'.pipelines[w]);
      }
    }
  }

  lemma {:induction false} RunKeepsAmounts(s: State, events: seq<Event>)
    requires Inv(s) && AmountsOk(s)
    ensures AmountsOk(Run(s, events))
    decreases |events|
  {
    if events != [] {
      StepKeepsInv(s, events[0]);
      StepKeepsAmounts(s, events[0]);
      RunKeepsAmounts(Step(s, events[0]), events[1..]);
    }
  }

  lemma CallIsFair(s: State, w: nat, env: Env)
    requires Inv(s) && AmountsOk(s) && w in s.pipelines
    ensures Step(s, StepPipeline(w, env)).calls != s.calls ==> FairCall(s, w, env)
  {
    var p := s.pipelines[w];
    assert PipelineOk(s, p) && AmountOk(p);
    if p.CallStripe? || p.CallPayPal? {
      CallAppends(s, w, env);
      if p.kwargs.paymentData.Some? {
        AmountIsFair(p.kwargs.order.value, p.kwargs.paymentData.value.value, p.kwargs.filtered);
      }
    } else {
      OnlyCallStepsCall(s, w, p, env);
    }
  }

  lemma AmountIsFair(o: Order, p: Payment, ids: seq<string>)
    ensures FairAmount(o, p, ids, AmountFor(o, p, ids))
  {
    if RefundArithmetic.Priced(o.lineItems, o.totalCents) && o.totalCents > 0 && p.amountPlanned >= 0 {
      RefundDecimals.DecimalRefundInRange(o.lineItems, o.totalCents, p.amountPlanned, ids);
      if RefundDecimals.Precise(o.lineItems, o.totalCents, p.amountPlanned) {
        RefundDecimals.DecimalRefundIsNearest(o.lineItems, o.totalCents, p.amountPlanned, ids);
      }
    }
  }

  // ----- No call for a fully refunded payment -----

  /** A run that has not read the payment, or has seen that there is nothing to refund. */
  ghost predicate WillNotCall(s: State, w: nat, key: string) {
    w in s.pipelines ==>
      match s.pipelines[w]
      case FetchOrder(_, _, _, _) => true
      case FetchPayment(_) => true
      case CallStripe(k) => k.paymentIntentId == Some(key) ==> k.hasBeenRefunded
      case CallPayPal(k, _, _) => k.paymentIntentId == Some(key) ==> k.hasBeenRefunded
      case _ => true
  }

  lemma StepKeepsFull(s: State, e: Event, key: string)
    requires Inv(s) && key in s.payments && FullyRefunded(TransactionsOf(s, key))
    requires forall t :: e != ChargeElsewhere(key, t)
    ensures key in Step(s, e).payments && TransactionsOf(Step(s, e), key) == TransactionsOf(s, key)
  {
    StepTransactions(s, e, key);
  }

  lemma {:induction false} RunKeepsFull(s: State, events: seq<Event>, key: string, w: nat, from: nat)
    requires Inv(s) && key in s.payments && FullyRefunded(TransactionsOf(s, key)) && NoChargeFor(events, key)
    ensures key in Run(s, events).payments && TransactionsOf(Run(s, events), key) == TransactionsOf(s, key)
    ensures WillNotCall(s, w, key) && NoCall(s.calls, from, w, key) ==> NoCall(Run(s, events).calls, from, w, key)
    decreases |events|
  {
    if events != [] {
      var s' := Step(s, events[0]);
      StepKeepsInv(s, events[0]);
      StepKeepsFull(s, events[0], key);
      if WillNotCall(s, w, key) && NoCall(s.calls, from, w, key) {
        StepWillNotCall(s, events[0], w, key);
        assert NoCall(s'.calls, from, w, key);
      }
      assert NoChargeFor(events[1..], key) by {
        forall i, t | 0 <= i < |events[1..]| ensures events[1..][i] != ChargeElsewhere(key, t) {
          assert events[1..][i] == events[i + 1];
        }
      }
      RunKeepsFull(s', events[1..], key, w, from);
    }
  }

  lemma StepWillNotCall(s: State, e: Event, w: nat, key: string)
    requires Inv(s) && key in s.payments && FullyRefunded(TransactionsOf(s, key)) && WillNotCall(s, w, key)
    ensures var s' := Step(s, e);
            WillNotCall(s', w, key)
            && (s'.calls == s.calls || exists c: PspCall ::
               !(c.pipeline == w && c.key == key) && s'.calls == s.calls + [c])
  {
    var s' := Step(s, e);
    StepFrame(s, e);
    StepCalls(s, e);
    if e.StepPipeline? && e.pipeline == w && w in s.pipelines {
      OwnStepWillNotCall(s, w, e.env, key);
    } else {
      if !ActsOn(e, w) {
        assert PipelineAt(s', w) == PipelineAt(s, w);
      }
    }
  }

  lemma OwnStepWillNotCall(s: State, w: nat, env: Env, key: string)
    requires Inv(s) && key in s.payments && FullyRefunded(TransactionsOf(s, key)) && WillNotCall(s, w, key)
    requires w in s.pipelines
    ensures var s' := StepPipelineAt(s, w, s.pipelines[w], env);
            WillNotCall(s', w, key)
            && (s'.calls == s.calls || (exists c: PspCall :: c.key != key && s'.calls == s.calls + [c]))
  {
    var p := s.pipelines[w];
    assert PipelineOk(s, p);
    if p.FetchOrder? || p.FetchPayment? {
      QuietStepWillNotCall(s, w, env, key);
    } else if p.CallStripe? || p.CallPayPal? {
      CallWillNotCall(s, w, env, key);
    } else {
      LateStepWillNotCall(s, w, p, env, key);
    }
  }

  lemma QuietStepWillNotCall(s: State, w: nat, env: Env, key: string)
    requires Inv(s) && key in s.payments && FullyRefunded(TransactionsOf(s, key))
    requires w in s.pipelines && (s.pipelines[w].FetchOrder? || s.pipelines[w].FetchPayment?)
    ensures var s' := StepPipelineAt(s, w, s.pipelines[w], env); WillNotCall(s', w, key) && s'.calls == s.calls
  {
    assert PipelineOk(s, s.pipelines[w]);
    if s.pipelines[w].FetchOrder? && s.pipelines[w].orderId in s.orders {
      SuccessfulPaymentHasId(s.orders[s.pipelines[w].orderId].value.payments);
    }
  }

  lemma CallWillNotCall(s: State, w: nat, env: Env, key: string)
    requires Inv(s) && WillNotCall(s, w, key)
    requires w in s.pipelines && (s.pipelines[w].CallStripe? || s.pipelines[w].CallPayPal?)
    ensures var s' := StepPipelineAt(s, w, s.pipelines[w], env);
            WillNotCall(s', w, key)
            && (s'.calls == s.calls || (exists c: PspCall :: c.key != key && s'.calls == s.calls + [c]))
  {
    assert PipelineOk(s, s.pipelines[w]);
    CallAppends(s, w, env);
  }

  lemma LateStepWillNotCall(s: State, w: nat, p: Pipeline, env: Env, key: string)
    requires !p.FetchOrder? && !p.FetchPayment? && !p.CallStripe? && !p.CallPayPal? && w in s.pipelines
             && s.pipelines[w] == p
    ensures StepPipelineAt(s, w, p, env).calls == s.calls
    ensures p.RecordTransaction? && Ready(s, p.kwargs, p.response) ==> WillNotCall(StepPipelineAt(s, w, p, env), w, key)
    ensures !p.RecordTransaction? ==> WillNotCall(StepPipelineAt(s, w, p, env), w, key)
  {
    if p.WriteStatus? {
      WriteStatusEnds(s, w, p.kwargs, p.response, p.pspError, p.payment, env);
    }
  }
}
