/**
 Concurrent refunds. For every returned order a pipeline run reads the order and its payment, asks
 the payment provider for a refund, records the refund as a transaction of the payment, and marks
 the return items. Webhook tasks record refunds the provider reports. Any number of both run at the
 same time, on the same payments and orders; every remote read and every remote write is one step,
 requests and responses may be lost, messages may be delivered again, and other clients write too.
 */
module RefundProtocol {
  import opened Wrappers
  import opened Payments
  import RefundArithmetic
  import RefundDecimals

  datatype Versioned<T> = Versioned(version: nat, value: T)

  datatype Psp = Stripe | PayPal | OtherPsp

  datatype ReturnState = NotYet | Refunded | NotRefunded

  datatype ReturnItem = ReturnItem(
    id: string,
    lineItemId: string,
    state: ReturnState,
    transactionId: Option<string>,
    entitlementId: Option<string>)

  /** A payment attached to an order; the interface id is also the payment's key. */
  datatype PaymentRef = PaymentRef(succeeded: bool, interfaceId: Option<string>, psp: Psp)

  datatype Order = Order(
    lineItems: seq<RefundArithmetic.LineItem>,
    totalCents: int,
    payments: seq<PaymentRef>,
    returnInfo: seq<seq<ReturnItem>>)

  /** A refund at the payment provider. */
  datatype PspRefund = PspRefund(id: string, cents: int, created: int, currency: string, status: string)

  /** One returned line item of a return message: line item id and return item id. */
  datatype ReturnLine = ReturnLine(lineItemId: string, returnId: string)

  // ----- What the pipeline computes from an order -----

  /** get_order_return_info_return_items */
  function ReturnItems(info: seq<seq<ReturnItem>>): seq<ReturnItem> {
    if info == [] then [] else ReturnItems(info[..|info| - 1]) + info[|info| - 1]
  }

  /** is_commercetools_line_item_already_refunded: the first refunded return item of a line item. */
  function AlreadyRefundedItem(items: seq<ReturnItem>, lineItemId: string): Option<ReturnItem> {
    if items == [] then None
    else if items[0].lineItemId == lineItemId && items[0].state == Refunded then Some(items[0])
    else AlreadyRefundedItem(items[1..], lineItemId)
  }

  /** Line items of the message that have not been refunded yet. */
  function FilteredIds(items: seq<ReturnItem>, lines: seq<ReturnLine>): seq<string> {
    if lines == [] then []
    else
      FilteredIds(items, lines[..|lines| - 1])
      + (var last := lines[|lines| - 1].lineItemId; if AlreadyRefundedItem(items, last).None? then [last] else [])
  }

  /** The transaction recorded for a line item that has been refunded, if any. */
  function RecordedTransaction(items: seq<ReturnItem>, lineItemId: string): Option<string> {
    match AlreadyRefundedItem(items, lineItemId)
    case None => None
    case Some(item) => if item.transactionId == Some("") then None else item.transactionId
  }

  /** Return item id to recorded transaction, for the line items that have one. */
  function RefundedItems(items: seq<ReturnItem>, lines: seq<ReturnLine>): map<string, string> {
    if lines == [] then map[]
    else
      var before := RefundedItems(items, lines[..|lines| - 1]);
      var last := lines[|lines| - 1];
      match RecordedTransaction(items, last.lineItemId)
      case None => before
      case Some(transactionId) => before[last.returnId := transactionId]
  }

  /** The amount of get_edx_refund_info, in minor units. */
  function AmountFor(o: Order, p: Payment, ids: seq<string>): int {
    RefundDecimals.DecimalRefundCents(o.lineItems, o.totalCents, p.amountPlanned, ids, RefundDecimals.Dec)
  }

  /** get_edx_successful_payment_info */
  function SuccessfulPayment(refs: seq<PaymentRef>): Option<PaymentRef> {
    if refs == [] then None
    else if refs[0].succeeded && refs[0].interfaceId.Some? && refs[0].interfaceId.value != "" then Some(refs[0])
    else SuccessfulPayment(refs[1..])
  }

  /** The arguments the pipeline steps hand on. `refundsThen` is what the provider had refunded when
      the payment was read; no step looks at it. */
  datatype Kwargs = Kwargs(
    orderId: string,
    order: Versioned<Order>,
    lines: seq<ReturnLine>,
    entitlements: map<string, string>,
    filtered: seq<string>,
    refundedItems: map<string, string>,
    psp: Option<Psp>,
    paymentIntentId: Option<string>,
    paymentData: Option<Versioned<Payment>>,
    amount: int,
    chargeId: Option<string>,
    hasBeenRefunded: bool,
    refundsThen: set<string>)

  datatype Response = NoResponse | AlreadyRefunded | RefundResponse(refund: PspRefund)

  /** A pipeline run, named by the step it takes next. */
  datatype Pipeline =
    | FetchOrder(orderId: string, lines: seq<ReturnLine>, entitlements: map<string, string>, managed: bool)
    | FetchPayment(kwargs: Kwargs)
    | CallStripe(kwargs: Kwargs)
    | CallPayPal(kwargs: Kwargs, response: Response, pspError: bool)
    | RecordTransaction(kwargs: Kwargs, response: Response, pspError: bool)
    | LookUpPayment(kwargs: Kwargs, response: Response)
    | ReadForStatus(kwargs: Kwargs, response: Response, pspError: bool)
    | WriteStatus(kwargs: Kwargs, response: Response, pspError: bool, payment: Versioned<Payment>)
    | TagTransaction(kwargs: Kwargs, payment: Versioned<Payment>, transactionId: string)
    | Completed
    | Crashed

  datatype HookKind = StripeHook | PayPalHook | IosHook | AndroidHook

  /** A webhook message: the refund, and what the payment is looked up by. */
  datatype HookMessage = HookMessage(kind: HookKind, lookup: string, refund: PspRefund)

  /** A payment that a task has found, as it last read or wrote it. */
  datatype Found = Found(key: string, read: Versioned<Payment>)

  datatype Hook =
    | HookRead(msg: HookMessage, retries: nat)
    | HookWrite(msg: HookMessage, retries: nat, key: string, read: Versioned<Payment>)
    | HookNotify(msg: HookMessage, retries: nat, key: string, read: Versioned<Payment>)
    | HookFindOrder(msg: HookMessage, retries: nat, key: string, read: Versioned<Payment>)
    | HookWriteOrder(
        msg: HookMessage,
        retries: nat,
        key: string,
        read: Versioned<Payment>,
        orderId: string,
        version: nat,
        returnIds: seq<string>)
    | HookTag(
        msg: HookMessage,
        retries: nat,
        key: string,
        read: Versioned<Payment>,
        transactionId: string,
        returnIds: seq<string>)
    | HookDone(msg: HookMessage, found: Option<Found>)
    | HookFailed

  /** A refund transaction that was accepted: by whom, and the payment it was computed from. */
  datatype Recording = Recording(key: string, refundId: string, cents: int, byPipeline: bool, read: Versioned<Payment>)

  /** A request to the provider to refund this much of a payment, for these line items of an order. */
  datatype PspCall = PspCall(pipeline: nat, key: string, cents: int, order: Order, ids: seq<string>)

  datatype State = State(
    payments: map<string, Versioned<Payment>>,
    orders: map<string, Versioned<Order>>,
    psp: set<string>,
    calls: seq<PspCall>,
    recordings: seq<Recording>,
    pipelines: map<nat, Pipeline>,
    hooks: map<nat, Hook>)

  /** A request can be lost on its way, or its response on the way back. */
  datatype Fault = NoFault | RequestLost | ResponseLost

  /** What the provider answers: a new refund, an existing one because the charge was refunded
      already, a refund that did not succeed, or an error, in which case refunds may exist all the
      same. `Broken` is an error the step does not catch. */
  datatype Answer =
    | Created(refund: PspRefund)
    | Existing(refund: PspRefund)
    | Unsuccessful(refundId: string)
    | Failed(refundIds: set<string>)
    | Broken(refundIds: set<string>)

  /** What the outside contributes to one step. The error a fault raises is `handled` when it is of a
      kind that the step catches or that Celery retries the task for; others end the run or the task.
      `newId` names a created transaction, `pick` chooses among query results. */
  datatype Env = Env(fault: Fault, handled: bool, answer: Answer, newId: string, pick: string)

  datatype Event =
    | StartPipeline(pipeline: nat, orderId: string, items: seq<ReturnLine>, entitlements: map<string, string>,
                    managed: bool)
    | StepPipeline(pipeline: nat, env: Env)
    | StartHook(hook: nat, msg: HookMessage)
    | StepHook(hook: nat, env: Env)
    | RefundElsewhere(refundId: string)
    | ChargeElsewhere(key: string, transaction: Transaction)
    | OrderElsewhere(orderId: string, order: Order)

  const MAX_RETRIES := 5

  /** The dictionary built from the return items of a message: a line item keeps its first place and
      its last return id. */
  function CollectLines(items: seq<ReturnLine>): seq<ReturnLine> {
    if items == [] then [] else SetLine(CollectLines(items[..|items| - 1]), items[|items| - 1])
  }

  function SetLine(lines: seq<ReturnLine>, item: ReturnLine): seq<ReturnLine> {
    if lines == [] then [item]
    else if lines[0].lineItemId == item.lineItemId then [item] + lines[1..]
    else [lines[0]] + SetLine(lines[1..], item)
  }

  function ReturnIds(lines: seq<ReturnLine>): seq<string> {
    if lines == [] then [] else [lines[0].returnId] + ReturnIds(lines[1..])
  }

  // ----- The remote store -----

  /** `payments.update_by_id` with one added transaction; None is a conflict. */
  function AddTransaction(s: State, r: Recording, t: Transaction): Option<State> {
    if r.key in s.payments && s.payments[r.key].version == r.read.version then
      var p := s.payments[r.key].value;
      Some(s.(payments := s.payments[r.key := Versioned(r.read.version + 1, p.(transactions := p.transactions + [t]))],
              recordings := s.recordings + [r]))
    else None
  }

  /** `payments.update_by_id` that sets a custom field of a transaction. */
  function SetTag(s: State, key: string, version: nat, transactionId: string, text: string): Option<State> {
    if key in s.payments && s.payments[key].version == version then
      var p := s.payments[key].value;
      Some(s.(payments := s.payments[key := Versioned(version + 1, p.(tags := p.tags[transactionId := text]))]))
    else None
  }

  function JoinIds(ids: seq<string>): string {
    if ids == [] then "" else if |ids| == 1 then ids[0] else ids[0] + ", " + JoinIds(ids[1..])
  }

  /** What a status update does to one return item: the payment state is set when asked for; setting
      the custom type replaces all custom fields. */
  function MarkItem(item: ReturnItem, state: Option<ReturnState>, transactionId: string,
                    entitlement: Option<string>): ReturnItem {
    item.(state := if state.Some? then state.value else item.state,
          transactionId := Some(transactionId),
          entitlementId := entitlement)
  }

  /** The changes a status update asks for, by return item. */
  datatype StatusUpdate = StatusUpdate(
    returnIds: seq<string>,
    state: Option<ReturnState>,
    transactionId: string,
    refundedItems: map<string, string>,
    entitlements: map<string, string>)

  function TransactionFor(u: StatusUpdate, returnId: string): string {
    if returnId in u.refundedItems then u.refundedItems[returnId] else u.transactionId
  }

  function EntitlementFor(u: StatusUpdate, returnId: string): Option<string> {
    if returnId in u.entitlements && u.entitlements[returnId] != "" then Some(u.entitlements[returnId]) else None
  }

  function MarkItems(items: seq<ReturnItem>, u: StatusUpdate): (r: seq<ReturnItem>)
    ensures |r| == |items|
  {
    if items == [] then []
    else
      [if items[0].id in u.returnIds then MarkItem(items[0], u.state, TransactionFor(u, items[0].id),
                                                   EntitlementFor(u, items[0].id)) else items[0]]
      + MarkItems(items[1..], u)
  }

  function MarkInfo(info: seq<seq<ReturnItem>>, u: StatusUpdate): (r: seq<seq<ReturnItem>>)
    ensures |r| == |info|
  {
    if info == [] then [] else MarkInfo(info[..|info| - 1], u) + [MarkItems(info[|info| - 1], u)]
  }

  predicate KnowsAll(items: seq<ReturnItem>, returnIds: seq<string>) {
    forall id :: id in returnIds ==> exists i :: 0 <= i < |items| && items[i].id == id
  }

  /** `orders.update_by_id`: refused on a conflict or when a return item is unknown. */
  function UpdateOrder(s: State, orderId: string, version: nat, u: StatusUpdate): Option<State> {
    if orderId in s.orders && s.orders[orderId].version == version
       && KnowsAll(ReturnItems(s.orders[orderId].value.returnInfo), u.returnIds) then
      var o := s.orders[orderId].value;
      Some(s.(orders := s.orders[orderId := Versioned(version + 1, o.(returnInfo := MarkInfo(o.returnInfo, u)))]))
    else None
  }

  // ----- Pipeline steps -----

  function Next(s: State, w: nat, p: Pipeline): State {
    s.(pipelines := s.pipelines[w := p])
  }

  /** FetchOrderDetailsByOrderID, first half. A failed fetch, like an order of the legacy system,
      leaves the arguments of the next step missing, which raises there. */
  function StepFetchOrder(s: State, w: nat, p: Pipeline, env: Env): State
    requires p.FetchOrder?
  {
    if !p.managed || env.fault != NoFault || p.orderId !in s.orders then Next(s, w, Crashed)
    else
      var order := s.orders[p.orderId];
      var items := ReturnItems(order.value.returnInfo);
      var payment := SuccessfulPayment(order.value.payments);
      var kwargs := Kwargs(p.orderId, order, p.lines, p.entitlements, FilteredIds(items, p.lines),
                           RefundedItems(items, p.lines),
                           if payment.Some? then Some(payment.value.psp) else None,
                           if payment.Some? then payment.value.interfaceId else None,
                           None, 0, None, false, {});
      Next(s, w, if payment.Some? then FetchPayment(kwargs) else CallStripe(kwargs))
  }

  /** FetchOrderDetailsByOrderID, second half: the payment, the amount, and whether to refund at all. */
  function StepFetchPayment(s: State, w: nat, k: Kwargs, env: Env): State {
    if env.fault != NoFault || k.paymentIntentId.None?
      || k.paymentIntentId.value !in s.payments then Next(s, w, Crashed)
    else
      var payment := s.payments[k.paymentIntentId.value];
      var amount := AmountFor(k.order.value, payment.value, k.filtered);
      Next(s, w, CallStripe(k.(paymentData := Some(payment),
                               amount := amount,
                               chargeId := LastChargeInteraction(payment.value.transactions),
                               hasBeenRefunded := FullyRefunded(payment.value.transactions) || amount == 0,
                               refundsThen := s.psp)))
  }

  /** Refunds that exist at the provider after its answer. A created refund has a new id. */
  function RefundsAfter(psp: set<string>, a: Answer): set<string> {
    match a
    case Created(r) => psp + {r.id}
    case Existing(_) => psp
    case Unsuccessful(id) => psp + {id}
    case Failed(ids) => psp + ids
    case Broken(ids) => psp + ids
  }

  predicate PossibleAnswer(psp: set<string>, a: Answer) {
    match a
    case Created(r) => r.id !in psp
    case Existing(r) => r.id in psp
    case _ => true
  }

  function ResponseTo(a: Answer): Response {
    match a
    case Created(r) => RefundResponse(r)
    case Existing(r) => RefundResponse(r)
    case _ => NoResponse
  }

  /** The request a run makes with its arguments. */
  function CallOf(w: nat, k: Kwargs): PspCall
    requires k.paymentIntentId.Some?
  {
    PspCall(w, k.paymentIntentId.value, k.amount, k.order.value, k.filtered)
  }

  function Called(s: State, w: nat, k: Kwargs, a: Answer): State
    requires k.paymentIntentId.Some?
  {
    s.(psp := RefundsAfter(s.psp, a), calls := s.calls + [CallOf(w, k)])
  }

  /** RefundPaymentIntent */
  function StepCallStripe(s: State, w: nat, k: Kwargs, env: Env): State {
    if !(k.psp == Some(Stripe) && k.paymentIntentId.Some?
      && k.amount != 0) then Next(s, w, CallPayPal(k, NoResponse, false))
    else if k.hasBeenRefunded then Next(s, w, CallPayPal(k, AlreadyRefunded, false))
    else if !PossibleAnswer(s.psp, env.answer) then s
    else
      Next(Called(s, w, k, env.answer), w,
           if env.answer.Broken? then Crashed else CallPayPal(k, ResponseTo(env.answer), env.answer.Failed?))
  }

  /** RefundPayPalPayment; every exception is caught */
  function StepCallPayPal(s: State, w: nat, k: Kwargs, response: Response, pspError: bool, env: Env): State {
    if !(k.psp == Some(PayPal) && k.paymentIntentId.Some? && k.amount != 0 && k.chargeId.Some?
      && k.chargeId.value != "") then
      Next(s, w, RecordTransaction(k, response, pspError))
    else if k.hasBeenRefunded then Next(s, w, RecordTransaction(k, AlreadyRefunded, pspError))
    else if !PossibleAnswer(s.psp, env.answer) then s
    else
      Next(Called(s, w, k, env.answer), w,
           RecordTransaction(k, ResponseTo(env.answer), env.answer.Failed? || env.answer.Broken?))
  }

  /** _preprocess_refund_object and the transaction draft. */
  function RefundTransaction(id: string, r: PspRefund, cents: int, read: Payment): Transaction {
    Transaction(id, Refund, Some(r.id), cents, Upper(r.currency), read.fractionDigits, r.created,
                TranslateStatus(r.status))
  }

  /** The amount recorded for a refund made by the pipeline. */
  function PipelineCents(psp: Option<Psp>, r: PspRefund): int {
    if psp == Some(PayPal) then PayPalCents(r.cents) else r.cents
  }

  /** CreateReturnPaymentTransaction. Without a refund object the step raises. A refused or failed
      write is logged and skipped for Stripe; for PayPal the log message itself raises. Errors of the
      connection are not caught. */
  function StepRecord(s: State, w: nat, k: Kwargs, response: Response, pspError: bool, env: Env): State {
    if response.AlreadyRefunded? || k.hasBeenRefunded || pspError || (k.paymentData.None? && k.psp.None?) then
      Next(s, w, ReadForStatus(k, response, pspError))
    else if k.paymentData.None? then
      Next(s, w, if k.psp == Some(Stripe) || k.psp == Some(PayPal) then LookUpPayment(k, response) else Crashed)
    else if response.NoResponse? || k.paymentIntentId.None? then Next(s, w, Crashed)
    else
      var refused := if k.psp == Some(PayPal) then Crashed else ReadForStatus(k, response, pspError);
      var failed := if env.handled then refused else Crashed;
      if env.fault == RequestLost then Next(s, w, failed)
      else
        var read := k.paymentData.value;
        var cents := PipelineCents(k.psp, response.refund);
        var r := Recording(k.paymentIntentId.value, response.refund.id, cents, true, read);
        match AddTransaction(s, r, RefundTransaction(env.newId, response.refund, cents, read.value))
        case None => Next(s, w, if env.fault == ResponseLost then failed else refused)
        case Some(s') => Next(s', w, if env.fault == ResponseLost then failed else ReadForStatus(k, response, pspError))
  }

  /** The fallback lookup of CreateReturnPaymentTransaction: read the payment now, then record. When the
      lookup fails, the log message asks for the id of a payment that is missing, and raises. */
  function StepLookUp(s: State, w: nat, k: Kwargs, response: Response, env: Env): State {
    if env.fault != NoFault || k.paymentIntentId.None?
      || k.paymentIntentId.value !in s.payments then Next(s, w, Crashed)
    else Next(s, w, RecordTransaction(k.(paymentData := Some(s.payments[k.paymentIntentId.value])), response, false))
  }

  /** UpdateCommercetoolsOrderReturnPaymentStatus: read the payment again. */
  function StepReadForStatus(s: State, w: nat, k: Kwargs, response: Response, pspError: bool, env: Env): State {
    if k.paymentIntentId.None? && k.psp.None? then Next(s, w, Completed)
    else if env.fault != NoFault || k.paymentIntentId.None?
        || k.paymentIntentId.value !in s.payments then Next(s, w, Crashed)
    else Next(s, w, WriteStatus(k, response, pspError, s.payments[k.paymentIntentId.value]))
  }

  function InteractionId(response: Response): Option<string> {
    if response.RefundResponse? then Some(response.refund.id) else None
  }

  function StatusOf(k: Kwargs, response: Response, pspError: bool, payment: Versioned<Payment>): StatusUpdate {
    StatusUpdate(ReturnIds(k.lines),
                 Some(if pspError then NotRefunded else Refunded),
                 ResolveTransaction(payment.value.transactions, InteractionId(response)),
                 k.refundedItems,
                 k.entitlements)
  }

  /** The order is marked under the version read at the start; a conflict raises. */
  function StepWriteStatus(s: State, w: nat, k: Kwargs, response: Response, pspError: bool,
                           payment: Versioned<Payment>, env: Env): State {
    if env.fault == RequestLost then Next(s, w, Crashed)
    else
      var u := StatusOf(k, response, pspError, payment);
      match UpdateOrder(s, k.orderId, k.order.version, u)
      case None => Next(s, w, Crashed)
      case Some(s') =>
        Next(s', w, if env.fault == ResponseLost then Crashed
                    else if u.transactionId != "" then TagTransaction(k, payment, u.transactionId) else Completed)
  }

  function StepTag(s: State, w: nat, k: Kwargs, payment: Versioned<Payment>, transactionId: string, env: Env): State {
    if env.fault == RequestLost || k.paymentIntentId.None? then Next(s, w, Crashed)
    else
      match SetTag(s, k.paymentIntentId.value, payment.version, transactionId, JoinIds(ReturnIds(k.lines)))
      case None => Next(s, w, Crashed)
      case Some(s') => Next(s', w, if env.fault == ResponseLost then Crashed else Completed)
  }

  function StepPipelineAt(s: State, w: nat, p: Pipeline, env: Env): State {
    match p
    case FetchOrder(_, _, _, _) => StepFetchOrder(s, w, p, env)
    case FetchPayment(k) => StepFetchPayment(s, w, k, env)
    case CallStripe(k) => StepCallStripe(s, w, k, env)
    case CallPayPal(k, response, pspError) => StepCallPayPal(s, w, k, response, pspError, env)
    case RecordTransaction(k, response, pspError) => StepRecord(s, w, k, response, pspError, env)
    case LookUpPayment(k, response) => StepLookUp(s, w, k, response, env)
    case ReadForStatus(k, response, pspError) => StepReadForStatus(s, w, k, response, pspError, env)
    case WriteStatus(k, response, pspError, payment) => StepWriteStatus(s, w, k, response, pspError, payment, env)
    case TagTransaction(k, payment, transactionId) => StepTag(s, w, k, payment, transactionId, env)
    case Completed => s
    case Crashed => s
  }

  // ----- Webhook steps -----

  function Then(s: State, w: nat, h: Hook): State {
    s.(hooks := s.hooks[w := h])
  }

  /** Celery starts it over, five times at most. */
  function Retry(msg: HookMessage, retries: nat): Hook {
    if retries < MAX_RETRIES then HookRead(msg, retries + 1) else HookFailed
  }

  /** What a task becomes when a request fails. */
  function Faulted(msg: HookMessage, retries: nat, env: Env): Hook {
    if env.handled then Retry(msg, retries) else HookFailed
  }

  predicate IsMobile(kind: HookKind) {
    kind == IosHook || kind == AndroidHook
  }

  predicate HasInteraction(p: Payment, interactionId: string) {
    exists i :: 0 <= i < |p.transactions| && p.transactions[i].interactionId == Some(interactionId)
  }

  /** Stripe payments are looked up by key, the others by a query on the transactions' interaction
      ids; a query has any of the matching payments as its first result. */
  predicate Finds(s: State, msg: HookMessage, key: string) {
    key in s.payments && if msg.kind == StripeHook then key == msg.lookup
        else HasInteraction(s.payments[key].value, msg.lookup)
  }

  /** The first read of a task, and its decision to skip. When the read itself fails, the Stripe and
      PayPal tasks raise while logging and are not retried. */
  function StepHookRead(s: State, w: nat, msg: HookMessage, retries: nat, env: Env): State {
    if env.fault != NoFault then Then(s, w, if IsMobile(msg.kind) then Faulted(msg, retries, env) else HookFailed)
    else if msg.kind == StripeHook && msg.lookup !in s.payments then Then(s, w, HookFailed)
    else if forall key :: key in s.payments ==> !Finds(s, msg, key) then Then(s, w, HookDone(msg, None))
    else if !Finds(s, msg, env.pick) then s
    else Then(s, w, AfterRead(msg, retries, env.pick, s.payments[env.pick]))
  }

  /** What a task does with the payment it has found. */
  function AfterRead(msg: HookMessage, retries: nat, key: string, read: Versioned<Payment>): Hook {
    if !FullyRefunded(read.value.transactions) && !HasRefund(read.value.transactions, Some(msg.refund.id)) then
      HookWrite(msg, retries, key, read)
    else if IsMobile(msg.kind) then HookFindOrder(msg, retries, key, read)
    else HookDone(msg, Some(Found(key, read)))
  }

  /** Google reports no amount; the planned amount of the payment is recorded. */
  function HookCents(msg: HookMessage, read: Payment): int {
    match msg.kind
    case AndroidHook => read.amountPlanned
    case PayPalHook => PayPalCents(msg.refund.cents)
    case StripeHook => msg.refund.cents
    case IosHook => msg.refund.cents
  }

  function HookTransaction(id: string, msg: HookMessage, read: Payment): Transaction {
    var r := if msg.kind == AndroidHook then msg.refund.(currency := read.currency) else msg.refund;
    RefundTransaction(id, r, HookCents(msg, read), read)
  }

  function StepHookWrite(s: State, w: nat, msg: HookMessage, retries: nat, key: string, read: Versioned<Payment>,
                         env: Env): State {
    if env.fault == RequestLost then Then(s, w, Faulted(msg, retries, env))
    else
      var r := Recording(key, msg.refund.id, HookCents(msg, read.value), false, read);
      match AddTransaction(s, r, HookTransaction(env.newId, msg, read.value))
      case None => Then(s, w, if env.fault == ResponseLost then Faulted(msg, retries, env) else Retry(msg, retries))
      case Some(s') =>
        Then(s', w, if env.fault == ResponseLost then Faulted(msg, retries, env)
                    else if IsMobile(msg.kind) then HookFindOrder(msg, retries, key, s'.payments[key])
                    else HookNotify(msg, retries, key, s'.payments[key]))
  }

  /** get_unprocessed_return_item_ids_from_order looks at the first item of each return info, newest
      info first; an empty info raises. */
  function UnprocessedIds(info: seq<seq<ReturnItem>>): Option<seq<string>> {
    if info == [] then Some([])
    else
      var items := info[|info| - 1];
      if items == [] then None
      else if items[0].state == Refunded
          && (items[0].transactionId == None || items[0].transactionId == Some("")) then Some(ItemIds(items))
      else UnprocessedIds(info[..|info| - 1])
  }

  function ItemIds(items: seq<ReturnItem>): seq<string> {
    if items == [] then [] else [items[0].id] + ItemIds(items[1..])
  }

  /** The query of find_order_with_unprocessed_return_for_payment. */
  predicate HasUnprocessed(o: Order, key: string) {
    (exists i :: 0 <= i < |o.payments| && o.payments[i].interfaceId == Some(key))
    && exists i :: 0 <= i < |ReturnItems(o.returnInfo)|
         && ReturnItems(o.returnInfo)[i].state == Refunded && ReturnItems(o.returnInfo)[i].transactionId == None
  }

  function StepHookFindOrder(s: State, w: nat, msg: HookMessage, retries: nat, key: string, read: Versioned<Payment>,
                             env: Env): State {
    if env.fault != NoFault then Then(s, w, Faulted(msg, retries, env))
    else if forall o :: o in s.orders ==> !HasUnprocessed(s.orders[o].value, key) then
      Then(s, w, HookDone(msg, Some(Found(key, read))))
    else if env.pick !in s.orders || !HasUnprocessed(s.orders[env.pick].value, key) then s
    else
      var order := s.orders[env.pick];
      match UnprocessedIds(order.value.returnInfo)
      case None => Then(s, w, HookFailed)
      case Some(ids) => Then(s, w, HookWriteOrder(msg, retries, key, read, env.pick, order.version, ids))
  }

  function HookStatus(msg: HookMessage, read: Versioned<Payment>, returnIds: seq<string>): StatusUpdate {
    StatusUpdate(returnIds, None, ResolveTransaction(read.value.transactions, Some(msg.refund.id)), map[], map[])
  }

  /** A refused update raises an error of another kind, which Celery does not retry. */
  function StepHookWriteOrder(s: State, w: nat, h: Hook, env: Env): State
    requires h.HookWriteOrder?
  {
    if env.fault == RequestLost then Then(s, w, Faulted(h.msg, h.retries, env))
    else
      var u := HookStatus(h.msg, h.read, h.returnIds);
      match UpdateOrder(s, h.orderId, h.version, u)
      case None => Then(s, w, if env.fault == ResponseLost then Faulted(h.msg, h.retries, env) else HookFailed)
      case Some(s') =>
        Then(s', w, if env.fault == ResponseLost then Faulted(h.msg, h.retries, env)
                    else if u.transactionId == "" then HookDone(h.msg, Some(Found(h.key, h.read)))
                    else HookTag(h.msg, h.retries, h.key, h.read, u.transactionId, h.returnIds))
  }

  function StepHookTag(s: State, w: nat, h: Hook, env: Env): State
    requires h.HookTag?
  {
    if env.fault == RequestLost then Then(s, w, Faulted(h.msg, h.retries, env))
    else
      match SetTag(s, h.key, h.read.version, h.transactionId, JoinIds(h.returnIds))
      case None => Then(s, w, if env.fault == ResponseLost then Faulted(h.msg, h.retries, env) else HookFailed)
      case Some(s') =>
        Then(s', w, if env.fault == ResponseLost then Faulted(h.msg, h.retries, env)
                    else HookDone(h.msg, Some(Found(h.key, h.read))))
  }

  function StepHookAt(s: State, w: nat, h: Hook, env: Env): State {
    match h
    case HookRead(msg, retries) => StepHookRead(s, w, msg, retries, env)
    case HookWrite(msg, retries, key, read) => StepHookWrite(s, w, msg, retries, key, read, env)
    case HookNotify(msg, retries, key, read) =>
      Then(s, w, if env.fault != NoFault then Faulted(msg, retries, env) else HookDone(msg, Some(Found(key, read))))
    case HookFindOrder(msg, retries, key, read) => StepHookFindOrder(s, w, msg, retries, key, read, env)
    case HookWriteOrder(_, _, _, _, _, _, _) => StepHookWriteOrder(s, w, h, env)
    case HookTag(_, _, _, _, _, _) => StepHookTag(s, w, h, env)
    case HookDone(_, _) => s
    case HookFailed => s
  }

  // ----- Runs -----

  /** One step; an event that is not enabled changes nothing. Webhooks report refunds that exist. */
  function Step(s: State, e: Event): State {
    match e
    case StartPipeline(w, orderId, items, entitlements, managed) =>
      if w in s.pipelines then s else Next(s, w, FetchOrder(orderId, CollectLines(items), entitlements, managed))
    case StepPipeline(w, env) => if w in s.pipelines then StepPipelineAt(s, w, s.pipelines[w], env) else s
    case StartHook(w, msg) => if w in s.hooks || msg.refund.id !in s.psp then s else Then(s, w, HookRead(msg, 0))
    case StepHook(w, env) => if w in s.hooks then StepHookAt(s, w, s.hooks[w], env) else s
    case RefundElsewhere(id) => s.(psp := s.psp + {id})
    case ChargeElsewhere(key, t) =>
      if key in s.payments && t.kind != Refund then
        var p := s.payments[key];
        s.(payments := s.payments[key := Versioned(p.version + 1,
                                                   p.value.(transactions := p.value.transactions + [t]))])
      else s
    case OrderElsewhere(orderId, order) =>
      if orderId in s.orders then s.(orders := s.orders[orderId := Versioned(s.orders[orderId].version + 1, order)])
      else s
  }

  function Run(s: State, events: seq<Event>): State
    decreases |events|
  {
    if events == [] then s else Run(Step(s, events[0]), events[1..])
  }

  ghost predicate RefundsKnown(ts: seq<Transaction>, psp: set<string>) {
    forall i :: 0 <= i < |ts| && ts[i].kind == Refund && ts[i].interactionId.Some? ==> ts[i].interactionId.value in psp
  }

  /** No run and no task has started; every recorded refund exists at the provider, and no payment
      has recorded one twice. */
  ghost predicate Init(s: State) {
    s.pipelines == map[] && s.hooks == map[] && s.recordings == [] && s.calls == []
    && forall key :: key in s.payments ==>
         UniqueRefunds(s.payments[key].value.transactions) && RefundsKnown(s.payments[key].value.transactions, s.psp)
  }
}
