/**
 What all pipeline runs together ask the payment provider for. One call asks for a rounded share of the planned
 amount; `CallsStayWithinPlanned` adds up the calls of any number of runs, and `TwoRunsAskTwice` shows why it has
 to be known that no line item is asked for twice. The rest of the module proves the two: disjoint shares do not
 add up to more than the whole, and planned amounts stay what they are.
 */
module RefundBudget {
  import opened Wrappers
  import opened Payments
  import opened RefundProtocol
  import opened RefundInvariants
  import opened RefundTheorems
  import opened RefundCalls
  import opened RefundArithmetic
  import opened RefundDecimals

  /** In every run, however many pipeline runs there are: if the calls for a payment were made for one order whose
      line totals add up, and no line item was asked for twice, they ask together for at most the planned amount and
      half a minor unit for each call, and for at most the planned amount when it equals the order total. */
  lemma CallsStayWithinPlanned(start: State, events: seq<Event>, key: string, o: Order)
    requires Init(start) && key in start.payments
    ensures var cs, planned := CallsFor(Run(start, events).calls, key), PlannedOf(start, key);
            OfOrder(cs, o) && AtMostOnce(o.lineItems, AskedIds(cs))
            && Priced(o.lineItems, o.totalCents) && o.totalCents > 0 && planned >= 0
            && Precise(o.lineItems, o.totalCents, planned)
            ==> 2 * (AskedCents(cs) - planned) <= |cs| && (planned == o.totalCents ==> AskedCents(cs) <= planned)
  {
    var s := Run(start, events);
    var cs, planned := CallsFor(s.calls, key), PlannedOf(start, key);
    RunKeepsBudgeted(start, events, key);
    CallsForAskForShares(s.calls, key, planned);
    if OfOrder(cs, o) && AtMostOnce(o.lineItems, AskedIds(cs)) && Priced(o.lineItems, o.totalCents) && o.totalCents > 0
       && planned >= 0 && Precise(o.lineItems, o.totalCents, planned) {
      AskedIsSumOfRefunds(cs, key, o, planned);
      DisjointRefundsStayWithin(o.lineItems, o.totalCents, planned, AskedIds(cs));
    }
  }

  /** The condition on line items is needed, in every start state with a refundable Stripe payment: of two runs for one
      return, which both read before either of them calls, each asks for the same amount. */
  lemma TwoRunsAskTwice(s: State, w: nat, v: nat, orderId: string, lines: seq<ReturnLine>, ref: PaymentRef, key: string,
                        env: Env, env': Env)
    requires Init(s) && w != v && orderId in s.orders && key in s.payments && env.fault == NoFault
    requires SuccessfulPayment(s.orders[orderId].value.payments) == Some(ref)
    requires ref.interfaceId == Some(key) && ref.psp == Stripe && !FullyRefunded(TransactionsOf(s, key))
    requires var o := s.orders[orderId].value;
             AmountFor(o, s.payments[key].value, FilteredIds(ReturnItems(o.returnInfo), CollectLines(lines))) != 0
    requires PossibleAnswer(s.psp, env.answer) && PossibleAnswer(RefundsAfter(s.psp, env.answer), env'.answer)
    ensures var e, f := StepPipeline(w, env), StepPipeline(v, env);
            var first := Run(s, [StartPipeline(w, orderId, lines, map[], true), e, e]);
            var both := Run(first, [StartPipeline(v, orderId, lines, map[], true), f, f]);
            var asked := Step(Step(both, e), StepPipeline(v, env'));
            var o := s.orders[orderId].value;
            AskedCents(CallsFor(asked.calls, key))
            == 2 * AmountFor(o, s.payments[key].value, FilteredIds(ReturnItems(o.returnInfo), CollectLines(lines)))
  {
    var e, f := StepPipeline(w, env), StepPipeline(v, env);
    var k := RunReachesCall(s, w, orderId, lines, map[], ref, key, env);
    var first := Run(s, [StartPipeline(w, orderId, lines, map[], true), e, e]);
    var k' := RunReachesCall(first, v, orderId, lines, map[], ref, key, env);
    var both := Run(first, [StartPipeline(v, orderId, lines, map[], true), f, f]);
    assert both.pipelines[w] == CallStripe(k) && both.pipelines[v] == CallStripe(k');
    BothAreAsked(both, w, v, k, k', env, env');
    CallsForTwo(CallOf(w, k), CallOf(v, k'));
  }

  lemma BothAreAsked(s: State, w: nat, v: nat, k: Kwargs, k': Kwargs, env: Env, env': Env)
    requires w != v && w in s.pipelines && s.pipelines[w] == CallStripe(k)
    requires v in s.pipelines && s.pipelines[v] == CallStripe(k') && s.calls == []
    requires k.psp == Some(Stripe) && k.paymentIntentId.Some? && k.amount != 0 && !k.hasBeenRefunded
    requires k'.psp == Some(Stripe) && k'.paymentIntentId.Some? && k'.amount != 0 && !k'.hasBeenRefunded
    requires PossibleAnswer(s.psp, env.answer) && PossibleAnswer(RefundsAfter(s.psp, env.answer), env'.answer)
    ensures Step(Step(s, StepPipeline(w, env)), StepPipeline(v, env')).calls == [CallOf(w, k), CallOf(v, k')]
  {
    StripeIsAsked(s, w, k, env);
    StripeIsAsked(Step(s, StepPipeline(w, env)), v, k', env');
  }

  /** No item of the order is requested by two of the partial returns. */
  predicate AtMostOnce(items: seq<LineItem>, parts: seq<seq<string>>) {
    forall i :: 0 <= i < |items| ==> Hits(items[i].id, parts) <= 1
  }

  /** Disjoint partial refunds, whether they cover the order or not, add up to at most the planned amount and half a
      minor unit for each of them; to at most the planned amount when it equals the order total. */
  lemma DisjointRefundsStayWithin(items: seq<LineItem>, orderTotal: int, planned: int, parts: seq<seq<string>>)
    requires Priced(items, orderTotal) && orderTotal > 0 && planned >= 0 && Precise(items, orderTotal, planned)
    requires AtMostOnce(items, parts)
    ensures 2 * (SumOfDecimalRefunds(items, orderTotal, planned, parts) - planned) <= |parts|
    ensures planned == orderTotal ==> SumOfDecimalRefunds(items, orderTotal, planned, parts) <= planned
  {
    TotalsCountHits(items, parts);
    DisjointTotals(items, parts);
    DecimalErrorPerPart(items, orderTotal, planned, parts);
    ErrorPerPart(items, orderTotal, planned, parts);
    CancelUpper(SumOfDecimalRefunds(items, orderTotal, planned, parts), SumOfTotals(items, parts), planned, |parts|,
                orderTotal);
  }

  // ----- Disjoint partial refunds -----

  lemma {:induction false} DisjointTotals(items: seq<LineItem>, parts: seq<seq<string>>)
    requires AtMostOnce(items, parts) && forall i :: 0 <= i < |items| ==> items[i].totalCents >= 0
    ensures WeightedTotals(items, parts) <= AllTotals(items)
  {
    if items != [] {
      assert Hits(items[0].id, parts) <= 1;
      assert items[0].totalCents >= 0;
      assert forall i :: 0 <= i < |items[1..]| ==> items[1..][i] == items[i + 1];
      DisjointTotals(items[1..], parts);
      AtMostWhole(items[0].totalCents, Hits(items[0].id, parts));
    }
  }

  lemma AtMostWhole(total: int, hits: nat)
    requires total >= 0 && hits <= 1
    ensures total * hits <= total
  {
  }

  lemma CancelUpper(sum: int, total: int, planned: int, k: int, t: int)
    requires t > 0 && planned >= 0 && total <= t && Within(sum, total, k, t, planned)
    ensures 2 * (sum - planned) <= k
  {
    var d := 2 * (sum - planned);
    assert (t - total) * planned >= 0;
    assert d * t == 2 * (sum * t - t * planned);
    assert d > k ==> (d - k) * t > 0;
  }

  // ----- Planned amounts do not change -----

  function PlannedOf(s: State, key: string): int {
    if key in s.payments then s.payments[key].value.amountPlanned else 0
  }

  lemma RecordedKeepsPlanned(s: State, e: Event, s': State, r: Recording, t: Transaction, key: string)
    requires key in s.payments && Recorded(s, e, s', r, t)
    ensures key in s'.payments && PlannedOf(s', key) == PlannedOf(s, key)
  {
  }

  lemma TouchedKeepsPlanned(s: State, e: Event, s': State, k: string, p: Payment, extra: seq<Transaction>, key: string)
    requires key in s.payments && Touched(s, e, s', k, p, extra)
    ensures key in s'.payments && PlannedOf(s', key) == PlannedOf(s, key)
  {
  }

  lemma StepKeepsPlanned(s: State, e: Event, key: string)
    requires Inv(s) && key in s.payments
    ensures key in Step(s, e).payments && PlannedOf(Step(s, e), key) == PlannedOf(s, key)
  {
    var s' := Step(s, e);
    Effect(s, e);
    if s'.payments != s.payments {
      if r, t :| Recorded(s, e, s', r, t) {
        RecordedKeepsPlanned(s, e, s', r, t, key);
      } else {
        var k, p, extra :| Touched(s, e, s', k, p, extra);
        TouchedKeepsPlanned(s, e, s', k, p, extra, key);
      }
    }
  }

  /** A run about to call has the planned amount of the payment it read. */
  ghost predicate PlannedRead(p: Pipeline, key: string, planned: int) {
    (p.CallStripe? || p.CallPayPal?) && p.kwargs.paymentData.Some? && p.kwargs.paymentIntentId == Some(key)
    ==> p.kwargs.paymentData.value.value.amountPlanned == planned
  }

  lemma FetchedPlanned(s: State, w: nat, p: Pipeline, env: Env, key: string)
    requires p.FetchOrder? || p.FetchPayment?
    ensures var next := PipelineAt(StepPipelineAt(s, w, p, env), w);
            next.Some? ==> PlannedRead(next.value, key, PlannedOf(s, key))
  {
  }

  /** What a call for the payment asks for, in terms of the planned amount. */
  predicate AsksForShare(c: PspCall, key: string, planned: int) {
    c.key == key ==> c.cents == DecimalRefundCents(c.order.lineItems, c.order.totalCents, planned, c.ids, Dec)
  }

  /** Everything that is said about calls for one payment. */
  ghost predicate Budgeted(s: State, key: string) {
    && key in s.payments
    && (forall w: nat :: w in s.pipelines ==> PlannedRead(s.pipelines[w], key, PlannedOf(s, key)))
    && (forall i :: 0 <= i < |s.calls| ==> AsksForShare(s.calls[i], key, PlannedOf(s, key)))
  }

  lemma StepKeepsPlannedRead(s: State, e: Event, key: string, w: nat)
    requires Inv(s) && Budgeted(s, key) && w in Step(s, e).pipelines
    ensures PlannedRead(Step(s, e).pipelines[w], key, PlannedOf(s, key))
  {
    var s' := Step(s, e);
    StepFrame(s, e);
    assert PipelineAt(s', w) == Some(s'.pipelines[w]);
    if PipelineAt(s', w) == PipelineAt(s, w) {
      assert PlannedRead(s.pipelines[w], key, PlannedOf(s, key));
    } else if e.StepPipeline? {
      assert PlannedRead(s.pipelines[w], key, PlannedOf(s, key));
      CallsComeFrom(s, w, s.pipelines[w], e.env);
      if s.pipelines[w].FetchOrder? || s.pipelines[w].FetchPayment? {
        FetchedPlanned(s, w, s.pipelines[w], e.env, key);
      }
    }
  }

  lemma NewCallAsksForShare(s: State, e: Event, key: string)
    requires Inv(s) && AmountsOk(s) && Budgeted(s, key)
    ensures var s' := Step(s, e);
            s'.calls == s.calls
            || exists c: PspCall :: s'.calls == s.calls + [c] && AsksForShare(c, key, PlannedOf(s, key))
  {
    StepCalls(s, e);
    if e.StepPipeline? && e.pipeline in s.pipelines {
      var p := s.pipelines[e.pipeline];
      assert PipelineOk(s, p) && AmountOk(p) && PlannedRead(p, key, PlannedOf(s, key));
      if p.CallStripe? || p.CallPayPal? {
        CallAppends(s, e.pipeline, e.env);
        if p.kwargs.paymentIntentId.Some? && p.kwargs.paymentData.Some? {
          assert AsksForShare(CallOf(e.pipeline, p.kwargs), key, PlannedOf(s, key));
        }
      } else {
        OnlyCallStepsCall(s, e.pipeline, p, e.env);
      }
    }
  }

  lemma StepKeepsBudgeted(s: State, e: Event, key: string)
    requires Inv(s) && AmountsOk(s) && Budgeted(s, key)
    ensures Budgeted(Step(s, e), key)
  {
    var s' := Step(s, e);
    StepKeepsPlanned(s, e, key);
    NewCallAsksForShare(s, e, key);
    forall w: nat | w in s'.pipelines ensures PlannedRead(s'.pipelines[w], key, PlannedOf(s', key)) {
      StepKeepsPlannedRead(s, e, key, w);
    }
  }

  lemma {:induction false} RunKeepsBudgeted(s: State, events: seq<Event>, key: string)
    requires Inv(s) && AmountsOk(s) && Budgeted(s, key)
    ensures Budgeted(Run(s, events), key) && PlannedOf(Run(s, events), key) == PlannedOf(s, key)
    decreases |events|
  {
    if events != [] {
      StepKeepsInv(s, events[0]);
      StepKeepsAmounts(s, events[0]);
      StepKeepsPlanned(s, events[0], key);
      StepKeepsBudgeted(s, events[0], key);
      RunKeepsBudgeted(Step(s, events[0]), events[1..], key);
    }
  }

  // ----- The calls for one payment -----

  function CallsFor(calls: seq<PspCall>, key: string): seq<PspCall> {
    if calls == [] then []
    else (if calls[0].key == key then [calls[0]] else []) + CallsFor(calls[1..], key)
  }

  function AskedCents(calls: seq<PspCall>): int {
    if calls == [] then 0 else calls[0].cents + AskedCents(calls[1..])
  }

  function AskedIds(calls: seq<PspCall>): (r: seq<seq<string>>)
    ensures |r| == |calls|
  {
    if calls == [] then [] else [calls[0].ids] + AskedIds(calls[1..])
  }

  /** All the calls were made for the same line items and total. */
  predicate OfOrder(calls: seq<PspCall>, o: Order) {
    forall i :: 0 <= i < |calls| ==>
      calls[i].order.lineItems == o.lineItems && calls[i].order.totalCents == o.totalCents
  }

  predicate AllAskForShares(calls: seq<PspCall>, key: string, planned: int) {
    forall i :: 0 <= i < |calls| ==> calls[i].key == key && AsksForShare(calls[i], key, planned)
  }

  lemma {:induction false} CallsForAskForShares(calls: seq<PspCall>, key: string, planned: int)
    requires forall i :: 0 <= i < |calls| ==> AsksForShare(calls[i], key, planned)
    ensures AllAskForShares(CallsFor(calls, key), key, planned)
  {
    if calls != [] {
      forall i | 0 <= i < |calls[1..]| ensures AsksForShare(calls[1..][i], key, planned) {
        assert calls[1..][i] == calls[i + 1];
      }
      CallsForAskForShares(calls[1..], key, planned);
      assert AsksForShare(calls[0], key, planned);
      var cs, rest := CallsFor(calls, key), CallsFor(calls[1..], key);
      forall i | 0 <= i < |cs| ensures cs[i].key == key && AsksForShare(cs[i], key, planned) {
        assert cs[i] == if calls[0].key != key then rest[i] else if i == 0 then calls[0] else rest[i - 1];
      }
    }
  }

  lemma {:induction false} AskedIsSumOfRefunds(calls: seq<PspCall>, key: string, o: Order, planned: int)
    requires OfOrder(calls, o) && AllAskForShares(calls, key, planned)
    ensures AskedCents(calls) == SumOfDecimalRefunds(o.lineItems, o.totalCents, planned, AskedIds(calls))
  {
    if calls != [] {
      assert calls[0].key == key && AsksForShare(calls[0], key, planned);
      assert calls[0].order.lineItems == o.lineItems && calls[0].order.totalCents == o.totalCents;
      assert forall i :: 0 <= i < |calls[1..]| ==> calls[1..][i] == calls[i + 1];
      AskedIsSumOfRefunds(calls[1..], key, o, planned);
      assert AskedIds(calls)[0] == calls[0].ids && AskedIds(calls)[1..] == AskedIds(calls[1..]);
    }
  }

  // ----- Asking twice -----

  /** A Stripe run that stands at its call makes it. */
  lemma StripeIsAsked(s: State, w: nat, k: Kwargs, env: Env)
    requires w in s.pipelines && s.pipelines[w] == CallStripe(k)
    requires k.psp == Some(Stripe) && k.paymentIntentId.Some? && k.amount != 0 && !k.hasBeenRefunded
    requires PossibleAnswer(s.psp, env.answer)
    ensures var t := Step(s, StepPipeline(w, env));
            t.calls == s.calls + [CallOf(w, k)] && t.psp == RefundsAfter(s.psp, env.answer)
            && forall v :: v in s.pipelines && v != w ==> v in t.pipelines && t.pipelines[v] == s.pipelines[v]
  {
  }

  lemma CallsForTwo(c: PspCall, d: PspCall)
    requires c.key == d.key
    ensures CallsFor([c, d], c.key) == [c, d] && AskedCents([c, d]) == c.cents + d.cents
  {
    assert [c, d][1..] == [d] && [d][1..] == [];
    assert CallsFor([d], c.key) == [d] && AskedCents([d]) == d.cents;
  }
}
