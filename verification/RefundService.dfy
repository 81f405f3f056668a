/** The refund pipeline and the webhook tasks on mutable state: each method is one step and is proved
    to do what the step function of the protocol says. */
module RefundService {
  import opened Wrappers
  import opened Payments
  import opened RefundProtocol
  import opened ReturnActions

  // ----- Loops over an order -----

  /** get_order_return_info_return_items */
  method GetReturnItems(info: seq<seq<ReturnItem>>) returns (items: seq<ReturnItem>)
    ensures items == ReturnItems(info)
  {
    items := [];
    for i := 0 to |info|
      invariant items == ReturnItems(info[..i])
    {
      items := items + info[i];
      assert info[..i + 1][..i] == info[..i];
    }
    assert info[..|info|] == info;
  }

  /** is_commercetools_line_item_already_refunded */
  method FindRefundedItem(items: seq<ReturnItem>, lineItemId: string) returns (found: Option<ReturnItem>)
    ensures found == AlreadyRefundedItem(items, lineItemId)
  {
    for i := 0 to |items|
      invariant AlreadyRefundedItem(items, lineItemId) == AlreadyRefundedItem(items[i..], lineItemId)
    {
      if items[i].lineItemId == lineItemId && items[i].state == Refunded {
        return Some(items[i]);
      }
    }
    return None;
  }

  /** The loop of FetchOrderDetailsByOrderID over the message's line items. */
  method FilterLineItems(items: seq<ReturnItem>, lines: seq<ReturnLine>)
    returns (filtered: seq<string>, refundedItems: map<string, string>)
    ensures filtered == FilteredIds(items, lines) && refundedItems == RefundedItems(items, lines)
  {
    filtered, refundedItems := [], map[];
    for i := 0 to |lines|
      invariant filtered == FilteredIds(items, lines[..i]) && refundedItems == RefundedItems(items, lines[..i])
    {
      var line := lines[i];
      var refund := FindRefundedItem(items, line.lineItemId);
      assert lines[..i + 1][..i] == lines[..i] && lines[..i + 1][i] == line;
      if refund.None? {
        filtered := filtered + [line.lineItemId];
      } else if refund.value.transactionId.Some? && refund.value.transactionId.value != "" {
        refundedItems := refundedItems[line.returnId := refund.value.transactionId.value];
      }
    }
    assert lines[..|lines|] == lines;
  }

  /** get_edx_successful_payment_info */
  method GetSuccessfulPayment(refs: seq<PaymentRef>) returns (payment: Option<PaymentRef>)
    ensures payment == SuccessfulPayment(refs)
  {
    for i := 0 to |refs|
      invariant SuccessfulPayment(refs) == SuccessfulPayment(refs[i..])
    {
      if refs[i].succeeded && refs[i].interfaceId.Some? && refs[i].interfaceId.value != "" {
        return Some(refs[i]);
      }
    }
    return None;
  }

  /** The loop of fulfill_order_returned_signal_task over the message's return items. */
  method CollectReturnLines(items: seq<ReturnLine>) returns (lines: seq<ReturnLine>, returnIds: seq<string>)
    ensures lines == CollectLines(items) && returnIds == ReturnIds(items)
  {
    lines, returnIds := [], [];
    for i := 0 to |items|
      invariant lines == CollectLines(items[..i]) && returnIds + ReturnIds(items[i..]) == ReturnIds(items)
    {
      returnIds := returnIds + [items[i].returnId];
      lines := SetLine(lines, items[i]);
      assert items[..i + 1][..i] == items[..i];
      assert items[i..][1..] == items[i + 1..];
    }
    assert items[..|items|] == items;
  }

  /** get_unprocessed_return_item_ids_from_order; None where it raises */
  method GetUnprocessedIds(info: seq<seq<ReturnItem>>) returns (ids: Option<seq<string>>)
    ensures ids == UnprocessedIds(info)
  {
    var n := |info|;
    assert info[..n] == info;
    while n > 0
      invariant 0 <= n <= |info| && UnprocessedIds(info) == UnprocessedIds(info[..n])
    {
      assert info[..n][..n - 1] == info[..n - 1];
      n := n - 1;
      var items := info[n];
      if items == [] {
        return None;
      }
      if items[0].state == Refunded && (items[0].transactionId.None? || items[0].transactionId == Some("")) {
        return Some(ItemIds(items));
      }
    }
    return Some([]);
  }

  class RefundService {
    var payments: map<string, Versioned<Payment>>
    var orders: map<string, Versioned<Order>>
    var psp: set<string>
    var calls: seq<PspCall>
    var recordings: seq<Recording>
    var pipelines: map<nat, Pipeline>
    var hooks: map<nat, Hook>

    ghost function View(): State
      reads this
    {
      State(payments, orders, psp, calls, recordings, pipelines, hooks)
    }

    constructor (payments: map<string, Versioned<Payment>>, orders: map<string, Versioned<Order>>, psp: set<string>)
      requires forall key :: key in payments ==> UniqueRefunds(payments[key].value.transactions)
      requires forall key :: key in payments ==> RefundsKnown(payments[key].value.transactions, psp)
      ensures Init(View()) && this.payments == payments && this.orders == orders && this.psp == psp
    {
      this.payments, this.orders, this.psp := payments, orders, psp;
      calls, recordings, pipelines, hooks := [], [], map[], map[];
    }

    // ----- The remote store -----

    /** create_return_payment_transaction: one transaction is added, under the version given. */
    method CreateReturnPaymentTransaction(r: Recording, t: Transaction) returns (raised: bool)
      modifies this`payments, this`recordings
      ensures var s := old(View());
              raised == AddTransaction(s, r, t).None?
              && View() == if raised then s else AddTransaction(s, r, t).value
    {
      raised := true;
      if r.key in payments && payments[r.key].version == r.read.version {
        var p := payments[r.key].value;
        payments := payments[r.key := Versioned(r.read.version + 1, p.(transactions := p.transactions + [t]))];
        recordings := recordings + [r];
        raised := false;
      }
    }

    /** The last write of update_return_payment_state_after_successful_refund. */
    method SetTransactionReturnIds(key: string, version: nat, transactionId: string, text: string)
      returns (raised: bool)
      modifies this`payments
      ensures var s := old(View());
              raised == SetTag(s, key, version, transactionId, text).None?
              && View() == if raised then s else SetTag(s, key, version, transactionId, text).value
    {
      raised := true;
      if key in payments && payments[key].version == version {
        var p := payments[key].value;
        payments := payments[key := Versioned(version + 1, p.(tags := p.tags[transactionId := text]))];
        raised := false;
      }
    }

    /** The actions are sent to the order together; it takes all of them or none. */
    method UpdateReturnPaymentState(orderId: string, version: nat, u: StatusUpdate) returns (raised: bool)
      modifies this`orders
      ensures var s := old(View());
              raised == UpdateOrder(s, orderId, version, u).None?
              && View() == if raised then s else UpdateOrder(s, orderId, version, u).value
    {
      raised := true;
      var actions := BuildReturnActions(u);
      if orderId in orders && orders[orderId].version == version {
        var o := orders[orderId].value;
        var items := GetReturnItems(o.returnInfo);
        if forall i :: 0 <= i < |actions| ==> exists j :: 0 <= j < |items| && items[j].id == actions[i].returnItemId {
          ApplyToInfoMarks(o.returnInfo, actions, u);
          assert KnowsAll(items, u.returnIds);
          orders := orders[orderId := Versioned(version + 1, o.(returnInfo := ApplyToInfo(o.returnInfo, actions)))];
          raised := false;
        } else {
          assert !KnowsAll(items, u.returnIds) by {
            var i :| 0 <= i < |actions| && !exists j :: 0 <= j < |items| && items[j].id == actions[i].returnItemId;
            assert actions[i].returnItemId in u.returnIds;
          }
        }
      }
    }

    // ----- Pipeline steps -----

    method SendReturnMessage(w: nat, orderId: string, items: seq<ReturnLine>, entitlements: map<string, string>,
                             managed: bool)
      modifies this
      ensures View() == Step(old(View()), StartPipeline(w, orderId, items, entitlements, managed))
    {
      if w !in pipelines {
        var lines, _ := CollectReturnLines(items);
        pipelines := pipelines[w := FetchOrder(orderId, lines, entitlements, managed)];
      }
    }

    method FetchOrderDetails(w: nat, env: Env)
      requires w in pipelines && pipelines[w].FetchOrder?
      modifies this
      ensures View() == Step(old(View()), StepPipeline(w, env))
    {
      var p := pipelines[w];
      if !p.managed || env.fault != NoFault || p.orderId !in orders {
        pipelines := pipelines[w := Crashed];
        return;
      }
      var order := orders[p.orderId];
      var items := GetReturnItems(order.value.returnInfo);
      var filtered, refundedItems := FilterLineItems(items, p.lines);
      var payment := GetSuccessfulPayment(order.value.payments);
      if payment.Some? {
        pipelines := pipelines[w := FetchPayment(Kwargs(p.orderId, order, p.lines, p.entitlements, filtered,
                                                        refundedItems,
                                                        Some(payment.value.psp), payment.value.interfaceId, None, 0,
                                                            None, false, {}))];
      } else {
        pipelines := pipelines[w := CallStripe(Kwargs(p.orderId, order, p.lines, p.entitlements, filtered,
                                                      refundedItems,
                                                      None, None, None, 0, None, false, {}))];
      }
    }

    method FetchPaymentDetails(w: nat, env: Env)
      requires w in pipelines && pipelines[w].FetchPayment?
      modifies this
      ensures View() == Step(old(View()), StepPipeline(w, env))
    {
      var k := pipelines[w].kwargs;
      if env.fault != NoFault || k.paymentIntentId.None? || k.paymentIntentId.value !in payments {
        pipelines := pipelines[w := Crashed];
        return;
      }
      var payment := payments[k.paymentIntentId.value];
      var amount := AmountFor(k.order.value, payment.value, k.filtered);
      var chargeId := GetChargeInteraction(payment.value.transactions);
      var full := HasFullRefundTransaction(payment.value.transactions);
      pipelines := pipelines[w := CallStripe(k.(paymentData := Some(payment), amount := amount, chargeId := chargeId,
                                                hasBeenRefunded := full || amount == 0, refundsThen := psp))];
    }

    /** What every call to a provider leaves behind. */
    method NoteCall(call: PspCall, a: Answer)
      modifies this`psp, this`calls
      ensures psp == RefundsAfter(old(psp), a) && calls == old(calls) + [call]
    {
      calls := calls + [call];
      match a
      case Created(r) => psp := psp + {r.id};
      case Existing(_) =>
      case Unsuccessful(id) => psp := psp + {id};
      case Failed(ids) => psp := psp + ids;
      case Broken(ids) => psp := psp + ids;
    }

    /** RefundPaymentIntent */
    method RefundPaymentIntent(w: nat, env: Env)
      requires w in pipelines && pipelines[w].CallStripe?
      modifies this
      ensures View() == Step(old(View()), StepPipeline(w, env))
    {
      var k := pipelines[w].kwargs;
      if !(k.psp == Some(Stripe) && k.paymentIntentId.Some? && k.amount != 0) {
        pipelines := pipelines[w := CallPayPal(k, NoResponse, false)];
      } else if k.hasBeenRefunded {
        pipelines := pipelines[w := CallPayPal(k, AlreadyRefunded, false)];
      } else if PossibleAnswer(psp, env.answer) {
        NoteCall(CallOf(w, k), env.answer);
        match env.answer {
          case Created(r) => pipelines := pipelines[w := CallPayPal(k, RefundResponse(r), false)];
          case Existing(r) => pipelines := pipelines[w := CallPayPal(k, RefundResponse(r), false)];
          case Unsuccessful(_) => pipelines := pipelines[w := CallPayPal(k, NoResponse, false)];
          case Failed(_) => pipelines := pipelines[w := CallPayPal(k, NoResponse, true)];
          case Broken(_) => pipelines := pipelines[w := Crashed];
        }
      }
    }

    /** RefundPayPalPayment */
    method RefundPayPalPayment(w: nat, env: Env)
      requires w in pipelines && pipelines[w].CallPayPal?
      modifies this
      ensures View() == Step(old(View()), StepPipeline(w, env))
    {
      var p := pipelines[w];
      var k := p.kwargs;
      if !(k.psp == Some(PayPal) && k.paymentIntentId.Some? && k.amount != 0 && k.chargeId.Some?
        && k.chargeId.value != "") {
        pipelines := pipelines[w := RecordTransaction(k, p.response, p.pspError)];
      } else if k.hasBeenRefunded {
        pipelines := pipelines[w := RecordTransaction(k, AlreadyRefunded, p.pspError)];
      } else if PossibleAnswer(psp, env.answer) {
        NoteCall(CallOf(w, k), env.answer);
        match env.answer {
          case Created(r) => pipelines := pipelines[w := RecordTransaction(k, RefundResponse(r), false)];
          case Existing(r) => pipelines := pipelines[w := RecordTransaction(k, RefundResponse(r), false)];
          case Unsuccessful(_) => pipelines := pipelines[w := RecordTransaction(k, NoResponse, false)];
          case Failed(_) => pipelines := pipelines[w := RecordTransaction(k, NoResponse, true)];
          case Broken(_) => pipelines := pipelines[w := RecordTransaction(k, NoResponse, true)];
        }
      }
    }

    /** CreateReturnPaymentTransaction, with its exception handling. */
    method RecordReturnPayment(w: nat, env: Env)
      requires w in pipelines && pipelines[w].RecordTransaction?
      modifies this
      ensures View() == Step(old(View()), StepPipeline(w, env))
    {
      var p := pipelines[w];
      var k := p.kwargs;
      var onwards := ReadForStatus(k, p.response, p.pspError);
      if p.response.AlreadyRefunded? || k.hasBeenRefunded || p.pspError || (k.paymentData.None? && k.psp.None?) {
        pipelines := pipelines[w := onwards];
      } else if k.paymentData.None? {
        pipelines := pipelines[w := if k.psp == Some(Stripe)
            || k.psp == Some(PayPal) then LookUpPayment(k, p.response) else Crashed];
      } else if p.response.NoResponse? || k.paymentIntentId.None? {
        pipelines := pipelines[w := Crashed];
      } else {
        var refund := p.response.refund;
        var refused, failed := false, env.fault == RequestLost;
        if !failed {
          refused := CreateReturnPaymentTransaction(
            Recording(k.paymentIntentId.value, refund.id, PipelineCents(k.psp, refund), true, k.paymentData.value),
            RefundTransaction(env.newId, refund, PipelineCents(k.psp, refund), k.paymentData.value.value));
          failed := env.fault == ResponseLost;
        }
        if failed && !env.handled {
          pipelines := pipelines[w := Crashed];
        } else {
          pipelines := pipelines[w := if (refused || failed) && k.psp == Some(PayPal) then Crashed else onwards];
        }
      }
    }

    method ReadPaymentForStatus(w: nat, env: Env)
      requires w in pipelines && pipelines[w].ReadForStatus?
      modifies this
      ensures View() == Step(old(View()), StepPipeline(w, env))
    {
      var p := pipelines[w];
      var k := p.kwargs;
      if k.paymentIntentId.None? && k.psp.None? {
        pipelines := pipelines[w := Completed];
      } else if env.fault != NoFault || k.paymentIntentId.None? || k.paymentIntentId.value !in payments {
        pipelines := pipelines[w := Crashed];
      } else {
        pipelines := pipelines[w := WriteStatus(k, p.response, p.pspError, payments[k.paymentIntentId.value])];
      }
    }

    method MarkReturnItems(w: nat, env: Env)
      requires w in pipelines && pipelines[w].WriteStatus?
      modifies this
      ensures View() == Step(old(View()), StepPipeline(w, env))
    {
      var p := pipelines[w];
      var raised := true;
      var u := StatusOf(p.kwargs, p.response, p.pspError, p.payment);
      if env.fault != RequestLost {
        raised := UpdateReturnPaymentState(p.kwargs.orderId, p.kwargs.order.version, u);
        raised := raised || env.fault == ResponseLost;
      }
      pipelines := pipelines[w := if raised then Crashed
                                  else if u.transactionId != "" then TagTransaction(p.kwargs, p.payment,
                                      u.transactionId)
                                  else Completed];
    }

    method TagReturnItems(w: nat, env: Env)
      requires w in pipelines && pipelines[w].TagTransaction?
      modifies this
      ensures View() == Step(old(View()), StepPipeline(w, env))
    {
      var p := pipelines[w];
      var raised := true;
      if env.fault != RequestLost && p.kwargs.paymentIntentId.Some? {
        raised := SetTransactionReturnIds(p.kwargs.paymentIntentId.value, p.payment.version, p.transactionId,
                                          JoinIds(ReturnIds(p.kwargs.lines)));
        raised := raised || env.fault == ResponseLost;
      }
      pipelines := pipelines[w := if raised then Crashed else Completed];
    }

    // ----- Webhook tasks -----

    method SendRefundEvent(w: nat, msg: HookMessage)
      modifies this
      ensures View() == Step(old(View()), StartHook(w, msg))
    {
      if w !in hooks && msg.refund.id in psp {
        hooks := hooks[w := HookRead(msg, 0)];
      }
    }

    /** The payment a refund event is about, and whether there is anything to record. */
    method ReadRefundedPayment(w: nat, env: Env)
      requires w in hooks && hooks[w].HookRead?
      modifies this
      ensures View() == Step(old(View()), StepHook(w, env))
    {
      var msg, retries := hooks[w].msg, hooks[w].retries;
      if env.fault != NoFault {
        hooks := hooks[w := if IsMobile(msg.kind) then Faulted(msg, retries, env) else HookFailed];
      } else if msg.kind == StripeHook && msg.lookup !in payments {
        hooks := hooks[w := HookFailed];
      } else if forall key ::
          key in payments
          ==> !(if msg.kind == StripeHook then key == msg.lookup else HasInteraction(payments[key].value, msg.lookup)) {
        hooks := hooks[w := HookDone(msg, None)];
      } else if env.pick in payments
          && (if msg.kind == StripeHook then env.pick == msg.lookup
             else HasInteraction(payments[env.pick].value, msg.lookup)) {
        var read := payments[env.pick];
        var full := HasFullRefundTransaction(read.value.transactions);
        var known := IsTransactionAlreadyRefunded(read.value.transactions, msg.refund.id);
        if full || known {
          hooks := hooks[w := if IsMobile(msg.kind) then HookFindOrder(msg, retries, env.pick, read)
                              else HookDone(msg, Some(Found(env.pick, read)))];
        } else {
          hooks := hooks[w := HookWrite(msg, retries, env.pick, read)];
        }
      }
    }

    method RecordRefundEvent(w: nat, env: Env)
      requires w in hooks && hooks[w].HookWrite?
      modifies this
      ensures View() == Step(old(View()), StepHook(w, env))
    {
      var h := hooks[w];
      if env.fault == RequestLost {
        hooks := hooks[w := Faulted(h.msg, h.retries, env)];
        return;
      }
      var cents := HookCents(h.msg, h.read.value);
      var refused := CreateReturnPaymentTransaction(Recording(h.key, h.msg.refund.id, cents, false, h.read),
                                                    HookTransaction(env.newId, h.msg, h.read.value));
      if env.fault == ResponseLost {
        hooks := hooks[w := Faulted(h.msg, h.retries, env)];
      } else if refused {
        hooks := hooks[w := Retry(h.msg, h.retries)];
      } else if IsMobile(h.msg.kind) {
        hooks := hooks[w := HookFindOrder(h.msg, h.retries, h.key, payments[h.key])];
      } else {
        hooks := hooks[w := HookNotify(h.msg, h.retries, h.key, payments[h.key])];
      }
    }

    method NotifySegment(w: nat, env: Env)
      requires w in hooks && hooks[w].HookNotify?
      modifies this
      ensures View() == Step(old(View()), StepHook(w, env))
    {
      var h := hooks[w];
      hooks := hooks[w := if env.fault != NoFault then Faulted(h.msg, h.retries, env)
          else HookDone(h.msg, Some(Found(h.key, h.read)))];
    }

    method FindUnprocessedReturn(w: nat, env: Env)
      requires w in hooks && hooks[w].HookFindOrder?
      modifies this
      ensures View() == Step(old(View()), StepHook(w, env))
    {
      var h := hooks[w];
      if env.fault != NoFault {
        hooks := hooks[w := Faulted(h.msg, h.retries, env)];
      } else if forall o :: o in orders ==> !HasUnprocessed(orders[o].value, h.key) {
        hooks := hooks[w := HookDone(h.msg, Some(Found(h.key, h.read)))];
      } else if env.pick in orders && HasUnprocessed(orders[env.pick].value, h.key) {
        var order := orders[env.pick];
        var ids := GetUnprocessedIds(order.value.returnInfo);
        hooks := hooks[w := match ids
                            case None => HookFailed
                            case Some(found) => HookWriteOrder(h.msg, h.retries, h.key, h.read, env.pick,
                                                               order.version, found)];
      }
    }

    method MarkMobileReturn(w: nat, env: Env)
      requires w in hooks && hooks[w].HookWriteOrder?
      modifies this
      ensures View() == Step(old(View()), StepHook(w, env))
    {
      var h := hooks[w];
      if env.fault == RequestLost {
        hooks := hooks[w := Faulted(h.msg, h.retries, env)];
        return;
      }
      var u := HookStatus(h.msg, h.read, h.returnIds);
      var refused := UpdateReturnPaymentState(h.orderId, h.version, u);
      if env.fault == ResponseLost {
        hooks := hooks[w := Faulted(h.msg, h.retries, env)];
      } else if refused {
        hooks := hooks[w := HookFailed];
      } else if u.transactionId == "" {
        hooks := hooks[w := HookDone(h.msg, Some(Found(h.key, h.read)))];
      } else {
        hooks := hooks[w := HookTag(h.msg, h.retries, h.key, h.read, u.transactionId, h.returnIds)];
      }
    }

    method TagMobileReturn(w: nat, env: Env)
      requires w in hooks && hooks[w].HookTag?
      modifies this
      ensures View() == Step(old(View()), StepHook(w, env))
    {
      var h := hooks[w];
      if env.fault == RequestLost {
        hooks := hooks[w := Faulted(h.msg, h.retries, env)];
        return;
      }
      var refused := SetTransactionReturnIds(h.key, h.read.version, h.transactionId, JoinIds(h.returnIds));
      hooks := hooks[w := if env.fault == ResponseLost then Faulted(h.msg, h.retries, env)
                          else if refused then HookFailed
                          else HookDone(h.msg, Some(Found(h.key, h.read)))];
    }
  }
}
