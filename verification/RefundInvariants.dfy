/**
 What every step of the refund protocol keeps. `Effect` sorts the steps by what they do to the
 payments: nothing, a new refund transaction, or a tag on one that is there; everything said about
 payments later follows from it. A step moves no worker but its own (`StepFrame`), and another
 worker's snapshots stay coherent because a document changes only together with its version.
 The worker that takes the step is treated stage by stage: an `...Ends` lemma says where the stage
 can lead, an `...Ok` lemma that the invariant of the worker holds there. `StepKeepsInv` puts the
 two together.
 */
module RefundInvariants {
  import opened Wrappers
  import opened Payments
  import opened RefundProtocol

  // ----- Snapshots -----

  /** A snapshot is not newer than the store, and at the current version it is the current value. */
  ghost predicate Coherent<T>(store: map<string, Versioned<T>>, key: string, read: Versioned<T>) {
    key in store && read.version <= store[key].version && (read.version == store[key].version ==> read == store[key])
  }

  /** Nothing is deleted, and nothing changes without a new version. */
  ghost predicate Evolves<T>(before: map<string, Versioned<T>>, after: map<string, Versioned<T>>) {
    forall key :: key in before ==> Coherent(after, key, before[key])
  }

  ghost predicate Grows(s: State, s': State) {
    Evolves(s.payments, s'.payments) && Evolves(s.orders, s'.orders) && s.psp <= s'.psp
  }

  // ----- Workers -----

  /** What the arguments of a pipeline run are, in terms of the order and the payment it has read. */
  ghost predicate KwargsOk(s: State, k: Kwargs) {
    && Coherent(s.orders, k.orderId, k.order)
    && k.filtered == FilteredIds(ReturnItems(k.order.value.returnInfo), k.lines)
    && k.refundedItems == RefundedItems(ReturnItems(k.order.value.returnInfo), k.lines)
    && (k.psp.Some? <==> k.paymentIntentId.Some?)
    && k.refundsThen <= s.psp
    && (k.paymentData.Some? ==>
          && k.paymentIntentId.Some? && Coherent(s.payments, k.paymentIntentId.value, k.paymentData.value)
          && RefundsKnown(k.paymentData.value.value.transactions, k.refundsThen)
          && (FullyRefunded(k.paymentData.value.value.transactions) ==> k.hasBeenRefunded))
  }

  /** Once the payment step is past, an order with a payment comes with the payment's data. */
  ghost predicate Ready(s: State, k: Kwargs, response: Response) {
    KwargsOk(s, k) && (k.paymentIntentId.Some? ==> k.paymentData.Some?)
    && (response.RefundResponse? ==> response.refund.id in s.psp && k.paymentData.Some?)
  }

  ghost predicate PipelineOk(s: State, p: Pipeline) {
    match p
    case FetchOrder(_, _, _, _) => true
    case FetchPayment(k) => KwargsOk(s, k) && k.paymentIntentId.Some? && k.paymentData.None?
    case CallStripe(k) => Ready(s, k, NoResponse)
    case CallPayPal(k, response, _) => Ready(s, k, response)
    case RecordTransaction(k, response, _) => Ready(s, k, response)
    case LookUpPayment(_, _) => false
    case ReadForStatus(k, response, _) => Ready(s, k, response)
    case WriteStatus(k, response, _, payment) =>
      Ready(s, k, response) && k.paymentIntentId.Some? && Coherent(s.payments, k.paymentIntentId.value, payment)
    case TagTransaction(k, payment, _) =>
      KwargsOk(s, k) && k.paymentIntentId.Some? && Coherent(s.payments, k.paymentIntentId.value, payment)
    case Completed => true
    case Crashed => true
  }

  /** A webhook task about to write has seen a payment that is not fully refunded and does not hold
      the refund. */
  ghost predicate HookOk(s: State, h: Hook) {
    match h
    case HookRead(msg, _) => msg.refund.id in s.psp
    case HookWrite(msg, _, key, read) =>
      && msg.refund.id in s.psp && Coherent(s.payments, key, read)
      && !FullyRefunded(read.value.transactions) && !HasRefund(read.value.transactions, Some(msg.refund.id))
    case HookNotify(msg, _, _, _) => msg.refund.id in s.psp
    case HookFindOrder(msg, _, key, read) => msg.refund.id in s.psp && Coherent(s.payments, key, read)
    case HookWriteOrder(msg, _, _, _, _, _, _) => msg.refund.id in s.psp
    case HookTag(msg, _, _, _, _, _) => msg.refund.id in s.psp
    case HookDone(msg, _) => msg.refund.id in s.psp
    case HookFailed => true
  }

  ghost predicate PaymentsKnown(s: State) {
    forall key :: key in s.payments ==> RefundsKnown(s.payments[key].value.transactions, s.psp)
  }

  ghost predicate PipelinesOk(s: State) {
    forall w: nat :: w in s.pipelines ==> PipelineOk(s, s.pipelines[w])
  }

  ghost predicate HooksOk(s: State) {
    forall w: nat :: w in s.hooks ==> HookOk(s, s.hooks[w])
  }

  ghost predicate Inv(s: State) {
    PaymentsKnown(s) && PipelinesOk(s) && HooksOk(s)
  }

  lemma KwargsOkLater(s: State, s': State, k: Kwargs)
    requires Grows(s, s') && KwargsOk(s, k)
    ensures KwargsOk(s', k)
  {
  }

  lemma PipelineOkLater(s: State, s': State, p: Pipeline)
    requires Grows(s, s') && PipelineOk(s, p)
    ensures PipelineOk(s', p)
  {
    match p
    case FetchOrder(_, _, _, _) =>
    case FetchPayment(k) => KwargsOkLater(s, s', k);
    case CallStripe(k) => KwargsOkLater(s, s', k);
    case CallPayPal(k, _, _) => KwargsOkLater(s, s', k);
    case RecordTransaction(k, _, _) => KwargsOkLater(s, s', k);
    case ReadForStatus(k, _, _) => KwargsOkLater(s, s', k);
    case WriteStatus(k, _, _, _) => KwargsOkLater(s, s', k);
    case TagTransaction(k, _, _) => KwargsOkLater(s, s', k);
    case Completed =>
    case Crashed =>
  }

  // ----- What a step may do to the payments -----

  /** A refund transaction was accepted. It was computed from the payment it was added to. */
  ghost predicate Recorded(s: State, e: Event, s': State, r: Recording, t: Transaction) {
    && r.key in s.payments && r.read == s.payments[r.key]
    && t.kind == Refund && t.interactionId == Some(r.refundId) && t.cents == r.cents && r.refundId in s.psp
    && s'.payments == s.payments[r.key := Versioned(r.read.version + 1,
                                                    r.read.value.(transactions := r.read.value.transactions + [t]))]
    && s'.recordings == s.recordings + [r]
    && !FullyRefunded(r.read.value.transactions)
    && (if r.byPipeline then RecordedByPipeline(s, e, r) else RecordedByHook(s, e, r))
  }

  ghost predicate RecordedByPipeline(s: State, e: Event, r: Recording) {
    && e.StepPipeline? && e.pipeline in s.pipelines && s.pipelines[e.pipeline].RecordTransaction?
    && s.pipelines[e.pipeline].kwargs.paymentData == Some(r.read)
    && s.pipelines[e.pipeline].response.RefundResponse?
    && s.pipelines[e.pipeline].response.refund.id == r.refundId
    && r.cents == PipelineCents(s.pipelines[e.pipeline].kwargs.psp, s.pipelines[e.pipeline].response.refund)
  }

  /** The check of the webhook tasks holds for the payment the transaction is added to. */
  ghost predicate RecordedByHook(s: State, e: Event, r: Recording) {
    && e.StepHook? && e.hook in s.hooks && s.hooks[e.hook].HookWrite? && s.hooks[e.hook].msg.refund.id == r.refundId
    && r.cents == HookCents(s.hooks[e.hook].msg, r.read.value)
    && !HasRefund(r.read.value.transactions, Some(r.refundId))
  }

  /** A payment was written without a new refund. */
  ghost predicate Touched(s: State, e: Event, s': State, key: string, p: Payment, extra: seq<Transaction>) {
    && key in s.payments && s'.recordings == s.recordings
    && p.transactions == s.payments[key].value.transactions + extra
    && p.amountPlanned == s.payments[key].value.amountPlanned
    && s'.payments == s.payments[key := Versioned(s.payments[key].version + 1, p)]
    && (extra == [] || (|extra| == 1 && extra[0].kind != Refund && e == ChargeElsewhere(key, extra[0])))
  }

  ghost predicate PaymentEffect(s: State, e: Event, s': State) {
    || (s'.payments == s.payments && s'.recordings == s.recordings)
    || (exists r, t :: Recorded(s, e, s', r, t))
    || (exists key, p, extra :: Touched(s, e, s', key, p, extra))
  }

  /** The effect of a step on everything but the worker that takes it. */
  ghost predicate StepEffect(s: State, e: Event, s': State) {
    PaymentEffect(s, e, s') && Evolves(s.orders, s'.orders) && s.psp <= s'.psp
  }

  lemma EffectGrows(s: State, e: Event, s': State)
    requires StepEffect(s, e, s')
    ensures Grows(s, s')
  {
    if s'.payments != s.payments {
      if r, t :| Recorded(s, e, s', r, t) {
      } else {
        var key, p, extra :| Touched(s, e, s', key, p, extra);
      }
    }
  }

  lemma SetTagTouches(s: State, e: Event, s': State, key: string, version: nat, transactionId: string, text: string)
    requires SetTag(s, key, version, transactionId, text).Some?
    requires s'.payments == SetTag(s, key, version, transactionId, text).value.payments && s'.recordings == s.recordings
    ensures PaymentEffect(s, e, s')
  {
    var p := s.payments[key].value;
    assert Touched(s, e, s', key, p.(tags := p.tags[transactionId := text]), []);
  }

  lemma UpdateOrderEvolves(s: State, orderId: string, version: nat, u: StatusUpdate)
    requires UpdateOrder(s, orderId, version, u).Some?
    ensures Evolves(s.orders, UpdateOrder(s, orderId, version, u).value.orders)
  {
  }

  lemma AddTransactionRecords(s: State, e: Event, s': State, r: Recording, t: Transaction)
    requires AddTransaction(s, r, t).Some? && Coherent(s.payments, r.key, r.read)
    requires s'.payments == AddTransaction(s, r, t).value.payments
             && s'.recordings == AddTransaction(s, r, t).value.recordings
    requires t.kind == Refund && t.interactionId == Some(r.refundId) && t.cents == r.cents && r.refundId in s.psp
    requires !FullyRefunded(r.read.value.transactions)
    requires if r.byPipeline then RecordedByPipeline(s, e, r) else RecordedByHook(s, e, r)
    ensures Recorded(s, e, s', r, t)
  {
  }

  /** What the recording step adds, if anything. */
  lemma RecordAdds(s: State, w: nat, p: Pipeline, env: Env)
    requires p.RecordTransaction? && Ready(s, p.kwargs, p.response)
    ensures var s', k := StepRecord(s, w, p.kwargs, p.response, p.pspError, env), p.kwargs;
            s'.orders == s.orders && s'.psp == s.psp
            && ((s'.payments == s.payments && s'.recordings == s.recordings)
                || (p.response.RefundResponse? && k.paymentIntentId.Some? && k.paymentData.Some? && !k.hasBeenRefunded
                    && var cents, read := PipelineCents(k.psp, p.response.refund), k.paymentData.value;
                       var r := Recording(k.paymentIntentId.value, p.response.refund.id, cents, true, read);
                       var added := AddTransaction(s, r,
                                                   RefundTransaction(env.newId, p.response.refund, cents, read.value));
                       added.Some? && s'.payments == added.value.payments && s'.recordings == added.value.recordings))
  {
  }

  lemma RecordEffect(s: State, w: nat, env: Env)
    requires w in s.pipelines && s.pipelines[w].RecordTransaction? && PipelineOk(s, s.pipelines[w])
    ensures StepEffect(s, StepPipeline(w, env), StepPipelineAt(s, w, s.pipelines[w], env))
  {
    var p := s.pipelines[w];
    var s' := StepRecord(s, w, p.kwargs, p.response, p.pspError, env);
    RecordAdds(s, w, p, env);
    if s'.payments != s.payments || s'.recordings != s.recordings {
      var read := p.kwargs.paymentData.value;
      var cents := PipelineCents(p.kwargs.psp, p.response.refund);
      var t := RefundTransaction(env.newId, p.response.refund, cents, read.value);
      var r := Recording(p.kwargs.paymentIntentId.value, p.response.refund.id, cents, true, read);
      AddTransactionRecords(s, StepPipeline(w, env), s', r, t);
    }
  }

  /** The steps that only read, or call the provider, leave payments and orders alone. */
  ghost predicate Quiet(s: State, s': State) {
    s'.payments == s.payments && s'.orders == s.orders && s'.recordings == s.recordings && s.psp <= s'.psp
  }

  lemma FetchEffect(s: State, w: nat, p: Pipeline, env: Env)
    requires p.FetchOrder? || p.FetchPayment?
    ensures Quiet(s, StepPipelineAt(s, w, p, env))
  {
  }

  lemma CallEffect(s: State, w: nat, p: Pipeline, env: Env)
    requires p.CallStripe? || p.CallPayPal?
    ensures Quiet(s, StepPipelineAt(s, w, p, env))
  {
  }

  lemma ReadEffect(s: State, w: nat, p: Pipeline, env: Env)
    requires p.LookUpPayment? || p.ReadForStatus? || p.Completed? || p.Crashed?
    ensures Quiet(s, StepPipelineAt(s, w, p, env))
  {
  }

  lemma WriteStatusEffect(s: State, w: nat, p: Pipeline, env: Env)
    requires p.WriteStatus?
    ensures var s' := StepWriteStatus(s, w, p.kwargs, p.response, p.pspError, p.payment, env);
            s'.payments == s.payments && s'.recordings == s.recordings && s'.psp == s.psp
                && Evolves(s.orders, s'.orders)
  {
    var u := StatusOf(p.kwargs, p.response, p.pspError, p.payment);
    if UpdateOrder(s, p.kwargs.orderId, p.kwargs.order.version, u).Some? {
      UpdateOrderEvolves(s, p.kwargs.orderId, p.kwargs.order.version, u);
    }
  }

  lemma TagEffect(s: State, w: nat, p: Pipeline, env: Env)
    requires p.TagTransaction?
    ensures StepEffect(s, StepPipeline(w, env), StepTag(s, w, p.kwargs, p.payment, p.transactionId, env))
  {
    var s' := StepTag(s, w, p.kwargs, p.payment, p.transactionId, env);
    if s'.payments != s.payments {
      SetTagTouches(s, StepPipeline(w, env), s', p.kwargs.paymentIntentId.value, p.payment.version, p.transactionId,
                    JoinIds(ReturnIds(p.kwargs.lines)));
    }
  }

  lemma PipelineEffect(s: State, w: nat, env: Env)
    requires w in s.pipelines && PipelineOk(s, s.pipelines[w])
    ensures StepEffect(s, StepPipeline(w, env), StepPipelineAt(s, w, s.pipelines[w], env))
  {
    var p := s.pipelines[w];
    match p
    case RecordTransaction(_, _, _) => RecordEffect(s, w, env);
    case WriteStatus(_, _, _, _) => WriteStatusEffect(s, w, p, env);
    case TagTransaction(_, _, _) => TagEffect(s, w, p, env);
    case FetchOrder(_, _, _, _) => FetchEffect(s, w, p, env);
    case FetchPayment(_) => FetchEffect(s, w, p, env);
    case CallStripe(_) => CallEffect(s, w, p, env);
    case CallPayPal(_, _, _) => CallEffect(s, w, p, env);
    case _ => ReadEffect(s, w, p, env);
  }

  lemma HookWriteEffect(s: State, w: nat, env: Env)
    requires w in s.hooks && s.hooks[w].HookWrite? && HookOk(s, s.hooks[w])
    ensures StepEffect(s, StepHook(w, env), StepHookAt(s, w, s.hooks[w], env))
  {
    var h := s.hooks[w];
    var s' := StepHookAt(s, w, h, env);
    if s'.payments != s.payments {
      var t := HookTransaction(env.newId, h.msg, h.read.value);
      var r := Recording(h.key, h.msg.refund.id, HookCents(h.msg, h.read.value), false, h.read);
      assert Recorded(s, StepHook(w, env), s', r, t);
    }
  }

  lemma HookReadEffect(s: State, w: nat, h: Hook, env: Env)
    requires h.HookRead?
    ensures Quiet(s, StepHookRead(s, w, h.msg, h.retries, env))
  {
  }

  lemma HookFindOrderEffect(s: State, w: nat, h: Hook, env: Env)
    requires h.HookFindOrder?
    ensures Quiet(s, StepHookFindOrder(s, w, h.msg, h.retries, h.key, h.read, env))
  {
  }

  lemma HookEndEffect(s: State, w: nat, h: Hook, env: Env)
    requires h.HookNotify? || h.HookDone? || h.HookFailed?
    ensures Quiet(s, StepHookAt(s, w, h, env))
  {
  }

  lemma HookOrderEffect(s: State, w: nat, h: Hook, env: Env)
    requires h.HookWriteOrder?
    ensures var s' := StepHookWriteOrder(s, w, h, env);
            s'.payments == s.payments && s'.recordings == s.recordings && s'.psp == s.psp
                && Evolves(s.orders, s'.orders)
  {
    var u := HookStatus(h.msg, h.read, h.returnIds);
    if UpdateOrder(s, h.orderId, h.version, u).Some? {
      UpdateOrderEvolves(s, h.orderId, h.version, u);
    }
  }

  lemma HookTagEffect(s: State, w: nat, h: Hook, env: Env)
    requires h.HookTag?
    ensures StepEffect(s, StepHook(w, env), StepHookTag(s, w, h, env))
  {
    var s' := StepHookTag(s, w, h, env);
    if s'.payments != s.payments {
      SetTagTouches(s, StepHook(w, env), s', h.key, h.read.version, h.transactionId, JoinIds(h.returnIds));
    }
  }

  lemma HookEffect(s: State, w: nat, env: Env)
    requires w in s.hooks && HookOk(s, s.hooks[w])
    ensures StepEffect(s, StepHook(w, env), StepHookAt(s, w, s.hooks[w], env))
  {
    var h := s.hooks[w];
    match h
    case HookWrite(_, _, _, _) => HookWriteEffect(s, w, env);
    case HookWriteOrder(_, _, _, _, _, _, _) => HookOrderEffect(s, w, h, env);
    case HookTag(_, _, _, _, _, _) => HookTagEffect(s, w, h, env);
    case HookRead(_, _) => HookReadEffect(s, w, h, env);
    case HookFindOrder(_, _, _, _) => HookFindOrderEffect(s, w, h, env);
    case _ => HookEndEffect(s, w, h, env);
  }

  lemma EffectOf(s: State, e: Event)
    requires Inv(s)
    ensures StepEffect(s, e, Step(s, e))
  {
    match e
    case StepPipeline(w, env) => if w in s.pipelines { PipelineEffect(s, w, env); }
    case StepHook(w, env) => if w in s.hooks { HookEffect(s, w, env); }
    case ChargeElsewhere(key, t) => ChargeEffect(s, key, t);
    case _ =>
  }

  lemma ChargeEffect(s: State, key: string, t: Transaction)
    ensures StepEffect(s, ChargeElsewhere(key, t), Step(s, ChargeElsewhere(key, t)))
  {
    var e := ChargeElsewhere(key, t);
    if key in s.payments && t.kind != Refund {
      var p := s.payments[key].value;
      assert Touched(s, e, Step(s, e), key, p.(transactions := p.transactions + [t]), [t]);
    }
  }

  lemma Effect(s: State, e: Event)
    requires Inv(s)
    ensures StepEffect(s, e, Step(s, e)) && Grows(s, Step(s, e))
  {
    EffectOf(s, e);
    EffectGrows(s, e, Step(s, e));
  }

  // ----- A step moves at most the worker it is about -----

  predicate ActsOn(e: Event, w: nat) {
    (e.StartPipeline? || e.StepPipeline?) && e.pipeline == w
  }

  predicate ActsOnHook(e: Event, w: nat) {
    (e.StartHook? || e.StepHook?) && e.hook == w
  }

  function PipelineAt(s: State, w: nat): Option<Pipeline> {
    if w in s.pipelines then Some(s.pipelines[w]) else None
  }

  function HookAt(s: State, w: nat): Option<Hook> {
    if w in s.hooks then Some(s.hooks[w]) else None
  }

  ghost predicate OnlyPipeline(s: State, s': State, v: nat) {
    s'.hooks == s.hooks && forall w: nat :: w != v ==> PipelineAt(s', w) == PipelineAt(s, w)
  }

  lemma FetchFrame(s: State, v: nat, p: Pipeline, env: Env)
    requires p.FetchOrder? || p.FetchPayment?
    ensures OnlyPipeline(s, StepPipelineAt(s, v, p, env), v)
  {
  }

  lemma CallStripeFrame(s: State, v: nat, k: Kwargs, env: Env)
    ensures OnlyPipeline(s, StepCallStripe(s, v, k, env), v)
  {
  }

  lemma CallPayPalFrame(s: State, v: nat, k: Kwargs, response: Response, pspError: bool, env: Env)
    ensures OnlyPipeline(s, StepCallPayPal(s, v, k, response, pspError, env), v)
  {
  }

  lemma RecordFrame(s: State, v: nat, k: Kwargs, response: Response, pspError: bool, env: Env)
    ensures OnlyPipeline(s, StepRecord(s, v, k, response, pspError, env), v)
  {
  }

  lemma StatusFrame(s: State, v: nat, k: Kwargs, response: Response, pspError: bool, payment: Versioned<Payment>,
                    env: Env)
    ensures OnlyPipeline(s, StepReadForStatus(s, v, k, response, pspError, env), v)
    ensures OnlyPipeline(s, StepWriteStatus(s, v, k, response, pspError, payment, env), v)
  {
  }

  lemma OtherStepFrame(s: State, v: nat, p: Pipeline, env: Env)
    requires p.LookUpPayment? || p.TagTransaction? || p.Completed? || p.Crashed?
    ensures OnlyPipeline(s, StepPipelineAt(s, v, p, env), v)
  {
  }

  lemma PipelineStepFrame(s: State, v: nat, p: Pipeline, env: Env)
    ensures OnlyPipeline(s, StepPipelineAt(s, v, p, env), v)
  {
    match p
    case RecordTransaction(k, response, pspError) => RecordFrame(s, v, k, response, pspError, env);
    case ReadForStatus(k, response, pspError) => StatusFrame(s, v, k, response, pspError,
                                                             Versioned(0, Payment([], map[], 0, "", 0)), env);
    case WriteStatus(k, response, pspError, payment) => StatusFrame(s, v, k, response, pspError, payment, env);
    case LookUpPayment(_, _) => OtherStepFrame(s, v, p, env);
    case TagTransaction(_, _, _) => OtherStepFrame(s, v, p, env);
    case Completed => OtherStepFrame(s, v, p, env);
    case Crashed => OtherStepFrame(s, v, p, env);
    case CallStripe(k) => CallStripeFrame(s, v, k, env);
    case CallPayPal(k, response, pspError) => CallPayPalFrame(s, v, k, response, pspError, env);
    case _ => FetchFrame(s, v, p, env);
  }

  ghost predicate OnlyHook(s: State, s': State, v: nat) {
    s'.pipelines == s.pipelines && s'.calls == s.calls && forall w: nat :: w != v ==> HookAt(s', w) == HookAt(s, w)
  }

  lemma HookReadFrame(s: State, v: nat, msg: HookMessage, retries: nat, env: Env)
    ensures OnlyHook(s, StepHookRead(s, v, msg, retries, env), v)
  {
  }

  lemma HookWriteFrame(s: State, v: nat, msg: HookMessage, retries: nat, key: string, read: Versioned<Payment>,
                       env: Env)
    ensures OnlyHook(s, StepHookWrite(s, v, msg, retries, key, read, env), v)
  {
  }

  lemma HookFindOrderFrame(s: State, v: nat, msg: HookMessage, retries: nat, key: string, read: Versioned<Payment>,
                           env: Env)
    ensures OnlyHook(s, StepHookFindOrder(s, v, msg, retries, key, read, env), v)
  {
  }

  lemma HookOrderFrame(s: State, v: nat, h: Hook, env: Env)
    requires h.HookWriteOrder?
    ensures OnlyHook(s, StepHookWriteOrder(s, v, h, env), v)
  {
  }

  lemma HookTagFrame(s: State, v: nat, h: Hook, env: Env)
    requires h.HookTag?
    ensures OnlyHook(s, StepHookTag(s, v, h, env), v)
  {
  }

  lemma HookStepFrame(s: State, v: nat, h: Hook, env: Env)
    ensures OnlyHook(s, StepHookAt(s, v, h, env), v)
  {
    match h
    case HookRead(msg, retries) => HookReadFrame(s, v, msg, retries, env);
    case HookWrite(msg, retries, key, read) => HookWriteFrame(s, v, msg, retries, key, read, env);
    case HookFindOrder(msg, retries, key, read) => HookFindOrderFrame(s, v, msg, retries, key, read, env);
    case HookWriteOrder(_, _, _, _, _, _, _) => HookOrderFrame(s, v, h, env);
    case HookTag(_, _, _, _, _, _) => HookTagFrame(s, v, h, env);
    case _ =>
  }

  lemma StepFrame(s: State, e: Event)
    ensures forall w: nat :: !ActsOn(e, w) ==> PipelineAt(Step(s, e), w) == PipelineAt(s, w)
    ensures forall w: nat :: !ActsOnHook(e, w) ==> HookAt(Step(s, e), w) == HookAt(s, w)
    ensures !e.StepPipeline? ==> Step(s, e).calls == s.calls
  {
    match e
    case StepPipeline(w, env) => if w in s.pipelines { PipelineStepFrame(s, w, s.pipelines[w], env); }
    case StepHook(w, env) => if w in s.hooks { HookStepFrame(s, w, s.hooks[w], env); }
    case _ =>
  }

  // ----- The worker that takes the step -----

  lemma FetchOrderOk(s: State, w: nat, p: Pipeline, env: Env)
    requires p.FetchOrder?
    ensures PipelineOk(s, StepFetchOrder(s, w, p, env).pipelines[w])
  {
    if p.orderId in s.orders {
      SuccessfulPaymentHasId(s.orders[p.orderId].value.payments);
    }
  }

  lemma SuccessfulPaymentHasId(refs: seq<PaymentRef>)
    ensures var r := SuccessfulPayment(refs); r.Some? ==> r.value.interfaceId.Some?
  {
  }

  lemma FetchPaymentOk(s: State, w: nat, k: Kwargs, env: Env)
    requires PaymentsKnown(s) && PipelineOk(s, FetchPayment(k))
    ensures PipelineOk(s, StepFetchPayment(s, w, k, env).pipelines[w])
  {
  }

  lemma CallStripeEnds(s: State, w: nat, k: Kwargs, env: Env)
    requires w in s.pipelines && s.pipelines[w] == CallStripe(k)
    ensures var s' := StepCallStripe(s, w, k, env);
            s'.payments == s.payments && s'.orders == s.orders && s.psp <= s'.psp
            && (s'.pipelines[w] == CallStripe(k) || s'.pipelines[w] == Crashed
                || (s'.pipelines[w].CallPayPal? && s'.pipelines[w].kwargs == k
                    && (s'.pipelines[w].response.RefundResponse?
                        ==> k.paymentIntentId.Some? && s'.pipelines[w].response.refund.id in s'.psp)))
  {
  }

  ghost predicate StepOk(s: State, w: nat, p: Pipeline, env: Env) {
    var s' := StepPipelineAt(s, w, p, env);
    PipelineAt(s', w).Some? && PipelineOk(s', PipelineAt(s', w).value)
  }

  lemma CallStripeOk(s: State, w: nat, p: Pipeline, env: Env)
    requires p.CallStripe? && w in s.pipelines && s.pipelines[w] == p && PipelineOk(s, p)
    ensures StepOk(s, w, p, env)
  {
    CallStripeEnds(s, w, p.kwargs, env);
    KwargsOkLater(s, StepCallStripe(s, w, p.kwargs, env), p.kwargs);
  }

  lemma CallPayPalEnds(s: State, w: nat, k: Kwargs, response: Response, pspError: bool, env: Env)
    requires w in s.pipelines && s.pipelines[w] == CallPayPal(k, response, pspError)
    ensures var s' := StepCallPayPal(s, w, k, response, pspError, env);
            s'.payments == s.payments && s'.orders == s.orders && s.psp <= s'.psp
            && (s'.pipelines[w] == s.pipelines[w]
                || (s'.pipelines[w].RecordTransaction? && s'.pipelines[w].kwargs == k
                    && (s'.pipelines[w].response.RefundResponse?
                        ==> s'.pipelines[w].response == response
                            || (k.paymentIntentId.Some? && s'.pipelines[w].response.refund.id in s'.psp))))
  {
  }

  lemma CallPayPalOk(s: State, w: nat, p: Pipeline, env: Env)
    requires p.CallPayPal? && w in s.pipelines && s.pipelines[w] == p && PipelineOk(s, p)
    ensures StepOk(s, w, p, env)
  {
    CallPayPalEnds(s, w, p.kwargs, p.response, p.pspError, env);
    KwargsOkLater(s, StepCallPayPal(s, w, p.kwargs, p.response, p.pspError, env), p.kwargs);
  }

  lemma RecordEnds(s: State, w: nat, k: Kwargs, response: Response, pspError: bool, env: Env)
    requires Ready(s, k, response)
    ensures var p := StepRecord(s, w, k, response, pspError, env).pipelines[w];
            p == Crashed || p == ReadForStatus(k, response, pspError)
  {
  }

  lemma RecordOk(s: State, w: nat, k: Kwargs, response: Response, pspError: bool, env: Env)
    requires PipelineOk(s, RecordTransaction(k, response, pspError))
    ensures PipelineOk(s, StepRecord(s, w, k, response, pspError, env).pipelines[w])
  {
    RecordEnds(s, w, k, response, pspError, env);
  }

  lemma ReadForStatusEnds(s: State, w: nat, k: Kwargs, response: Response, pspError: bool, env: Env)
    ensures var p := StepReadForStatus(s, w, k, response, pspError, env).pipelines[w];
            p == Completed || p == Crashed
            || (k.paymentIntentId.Some? && k.paymentIntentId.value in s.payments
                && p == WriteStatus(k, response, pspError, s.payments[k.paymentIntentId.value]))
  {
  }

  lemma ReadForStatusOk(s: State, w: nat, k: Kwargs, response: Response, pspError: bool, env: Env)
    requires PipelineOk(s, ReadForStatus(k, response, pspError))
    ensures PipelineOk(s, StepReadForStatus(s, w, k, response, pspError, env).pipelines[w])
  {
    ReadForStatusEnds(s, w, k, response, pspError, env);
  }

  lemma WriteStatusEnds(s: State, w: nat, k: Kwargs, response: Response, pspError: bool, payment: Versioned<Payment>,
                        env: Env)
    ensures var p := StepWriteStatus(s, w, k, response, pspError, payment, env).pipelines[w];
            p.Crashed? || p.Completed? || (p.TagTransaction? && p.kwargs == k && p.payment == payment)
  {
  }

  lemma WriteStatusOk(s: State, w: nat, k: Kwargs, response: Response, pspError: bool, payment: Versioned<Payment>,
                      env: Env)
    requires PipelineOk(s, WriteStatus(k, response, pspError, payment))
    ensures PipelineOk(s, StepWriteStatus(s, w, k, response, pspError, payment, env).pipelines[w])
  {
    WriteStatusEnds(s, w, k, response, pspError, payment, env);
  }

  lemma TagEnds(s: State, w: nat, k: Kwargs, payment: Versioned<Payment>, transactionId: string, env: Env)
    ensures var p := StepTag(s, w, k, payment, transactionId, env).pipelines[w]; p == Crashed || p == Completed
  {
  }

  lemma TagOk(s: State, w: nat, k: Kwargs, payment: Versioned<Payment>, transactionId: string, env: Env)
    ensures PipelineOk(s, StepTag(s, w, k, payment, transactionId, env).pipelines[w])
  {
    TagEnds(s, w, k, payment, transactionId, env);
  }

  lemma PipelineStepOk(s: State, w: nat, env: Env)
    requires PaymentsKnown(s) && w in s.pipelines && PipelineOk(s, s.pipelines[w])
    ensures StepOk(s, w, s.pipelines[w], env)
  {
    var p := s.pipelines[w];
    if p.CallStripe? {
      CallStripeOk(s, w, p, env);
    } else if p.CallPayPal? {
      CallPayPalOk(s, w, p, env);
    } else {
      ReadOrWriteStepOk(s, w, env);
      PipelineOkNow(s, w, env);
    }
  }

  lemma ReadOrWriteStepOk(s: State, w: nat, env: Env)
    requires PaymentsKnown(s) && w in s.pipelines && PipelineOk(s, s.pipelines[w])
    requires !s.pipelines[w].CallStripe? && !s.pipelines[w].CallPayPal?
    ensures NextOk(s, w, s.pipelines[w], env)
  {
    var p := s.pipelines[w];
    if p.FetchOrder? || p.FetchPayment? {
      FetchStepOk(s, w, p, env);
    } else {
      LateStepOk(s, w, p, env);
    }
  }

  /** A run ends its step where its arguments allow it. */
  ghost predicate NextOk(s: State, w: nat, p: Pipeline, env: Env) {
    var next := PipelineAt(StepPipelineAt(s, w, p, env), w); next.Some? && PipelineOk(s, next.value)
  }

  lemma FetchStepOk(s: State, w: nat, p: Pipeline, env: Env)
    requires PaymentsKnown(s) && PipelineOk(s, p) && (p.FetchOrder? || p.FetchPayment?)
    ensures NextOk(s, w, p, env)
  {
    if p.FetchOrder? {
      FetchOrderOk(s, w, p, env);
    } else {
      FetchPaymentOk(s, w, p.kwargs, env);
    }
  }

  lemma LateStepOk(s: State, w: nat, p: Pipeline, env: Env)
    requires PipelineOk(s, p) && w in s.pipelines && s.pipelines[w] == p
    requires !p.FetchOrder? && !p.FetchPayment? && !p.CallStripe? && !p.CallPayPal?
    ensures NextOk(s, w, p, env)
  {
    match p
    case RecordTransaction(k, response, pspError) => RecordOk(s, w, k, response, pspError, env);
    case ReadForStatus(k, response, pspError) => ReadForStatusOk(s, w, k, response, pspError, env);
    case WriteStatus(k, response, pspError, payment) => WriteStatusOk(s, w, k, response, pspError, payment, env);
    case TagTransaction(k, payment, transactionId) => TagOk(s, w, k, payment, transactionId, env);
    case _ =>
  }

  lemma PipelineOkNow(s: State, w: nat, env: Env)
    requires w in s.pipelines && PipelineOk(s, s.pipelines[w]) && NextOk(s, w, s.pipelines[w], env)
    ensures StepOk(s, w, s.pipelines[w], env)
  {
    var s' := StepPipelineAt(s, w, s.pipelines[w], env);
    PipelineEffect(s, w, env);
    EffectGrows(s, StepPipeline(w, env), s');
    PipelineOkLater(s, s', PipelineAt(s', w).value);
  }

  lemma HookOkLater(s: State, s': State, h: Hook)
    requires Grows(s, s') && HookOk(s, h)
    ensures HookOk(s', h)
  {
  }

  /** Where a webhook task's write can leave it. After an accepted write a mobile task goes on with the
      payment the write returned. */
  lemma HookWriteEnds(s: State, w: nat, h: Hook, env: Env)
    requires h.HookWrite? && HookOk(s, h)
    ensures var s' := StepHookWrite(s, w, h.msg, h.retries, h.key, h.read, env);
            var h' := s'.hooks[w];
            h' == HookFailed || h' == Retry(h.msg, h.retries)
            || (h.key in s'.payments && s'.payments != s.payments
                && ((h'.HookNotify? && h'.msg == h.msg && h'.key == h.key)
                   || h' == HookFindOrder(h.msg, h.retries, h.key, s'.payments[h.key])))
  {
  }

  lemma HookWriteOk(s: State, w: nat, h: Hook, env: Env)
    requires h.HookWrite? && HookOk(s, h)
    ensures var s' := StepHookWrite(s, w, h.msg, h.retries, h.key, h.read, env);
            h.msg.refund.id in s'.psp ==> HookOk(s', s'.hooks[w])
  {
    HookWriteEnds(s, w, h, env);
  }

  lemma HookReadEnds(s: State, w: nat, msg: HookMessage, retries: nat, env: Env)
    requires w in s.hooks
    ensures var h' := StepHookRead(s, w, msg, retries, env).hooks[w];
            h' == HookFailed || h' == Retry(msg, retries) || h' == HookDone(msg, None) || h' == s.hooks[w]
            || (env.pick in s.payments && h' == AfterRead(msg, retries, env.pick, s.payments[env.pick]))
  {
  }

  lemma AfterReadOk(s: State, msg: HookMessage, retries: nat, key: string)
    requires key in s.payments && msg.refund.id in s.psp
    ensures HookOk(s, AfterRead(msg, retries, key, s.payments[key]))
  {
  }

  lemma HookReadOk(s: State, w: nat, msg: HookMessage, retries: nat, env: Env)
    requires HookOk(s, HookRead(msg, retries)) && w in s.hooks && HookOk(s, s.hooks[w])
    ensures HookOk(s, StepHookRead(s, w, msg, retries, env).hooks[w])
  {
    HookReadEnds(s, w, msg, retries, env);
    if env.pick in s.payments { AfterReadOk(s, msg, retries, env.pick); }
  }

  lemma HookFindOrderOk(s: State, w: nat, h: Hook, env: Env)
    requires h.HookFindOrder? && w in s.hooks && s.hooks[w] == h && HookOk(s, h)
    ensures HookOk(s, StepHookFindOrder(s, w, h.msg, h.retries, h.key, h.read, env).hooks[w])
  {
  }

  lemma HookOrderEnds(s: State, w: nat, h: Hook, env: Env)
    requires h.HookWriteOrder?
    ensures var h' := StepHookWriteOrder(s, w, h, env).hooks[w];
            var transactionId := HookStatus(h.msg, h.read, h.returnIds).transactionId;
            h' == HookFailed || h' == Retry(h.msg, h.retries) || h' == HookDone(h.msg, Some(Found(h.key, h.read)))
            || h' == HookTag(h.msg, h.retries, h.key, h.read, transactionId, h.returnIds)
  {
  }

  lemma HookOrderOk(s: State, w: nat, h: Hook, env: Env)
    requires h.HookWriteOrder? && HookOk(s, h)
    ensures HookOk(s, StepHookWriteOrder(s, w, h, env).hooks[w])
  {
    HookOrderEnds(s, w, h, env);
  }

  lemma HookTagEnds(s: State, w: nat, h: Hook, env: Env)
    requires h.HookTag?
    ensures var h' := StepHookTag(s, w, h, env).hooks[w];
            h' == HookFailed || h' == Retry(h.msg, h.retries) || h' == HookDone(h.msg, Some(Found(h.key, h.read)))
  {
  }

  lemma HookTagOk(s: State, w: nat, h: Hook, env: Env)
    requires h.HookTag? && HookOk(s, h)
    ensures HookOk(s, StepHookTag(s, w, h, env).hooks[w])
  {
    HookTagEnds(s, w, h, env);
  }

  lemma EndingHookOk(s: State, w: nat, h: Hook, env: Env)
    requires w in s.hooks && s.hooks[w] == h && HookOk(s, h) && (h.HookNotify? || h.HookDone? || h.HookFailed?)
    ensures HookOk(s, StepHookAt(s, w, h, env).hooks[w])
  {
  }

  lemma OtherHookOk(s: State, w: nat, h: Hook, env: Env)
    requires w in s.hooks && s.hooks[w] == h && !h.HookWrite? && HookOk(s, h)
    ensures var h' := HookAt(StepHookAt(s, w, h, env), w); h'.Some? && HookOk(s, h'.value)
  {
    match h
    case HookRead(msg, retries) => HookReadOk(s, w, msg, retries, env);
    case HookFindOrder(_, _, _, _) => HookFindOrderOk(s, w, h, env);
    case HookWriteOrder(_, _, _, _, _, _, _) => HookOrderOk(s, w, h, env);
    case HookTag(_, _, _, _, _, _) => HookTagOk(s, w, h, env);
    case _ => EndingHookOk(s, w, h, env);
  }

  lemma HookStepOk(s: State, w: nat, env: Env)
    requires w in s.hooks && HookOk(s, s.hooks[w])
    ensures var s' := StepHookAt(s, w, s.hooks[w], env); HookAt(s', w).Some? && HookOk(s', HookAt(s', w).value)
  {
    var h := s.hooks[w];
    var s' := StepHookAt(s, w, h, env);
    HookEffect(s, w, env);
    EffectGrows(s, StepHook(w, env), s');
    if h.HookWrite? {
      HookWriteOk(s, w, h, env);
    } else {
      OtherHookOk(s, w, h, env);
      HookOkLater(s, s', HookAt(s', w).value);
    }
  }

  // ----- The invariant -----

  lemma RecordedIsKnown(s: State, e: Event, s': State, r: Recording, t: Transaction)
    requires PaymentsKnown(s) && Recorded(s, e, s', r, t) && s.psp <= s'.psp
    ensures PaymentsKnown(s')
  {
    forall key | key in s'.payments ensures RefundsKnown(s'.payments[key].value.transactions, s'.psp) {
      assert key in s.payments && RefundsKnown(s.payments[key].value.transactions, s.psp);
    }
  }

  lemma TouchedIsKnown(s: State, e: Event, s': State, k: string, p: Payment, extra: seq<Transaction>)
    requires PaymentsKnown(s) && Touched(s, e, s', k, p, extra) && s.psp <= s'.psp
    ensures PaymentsKnown(s')
  {
    forall key | key in s'.payments ensures RefundsKnown(s'.payments[key].value.transactions, s'.psp) {
      assert key in s.payments && RefundsKnown(s.payments[key].value.transactions, s.psp);
    }
  }

  lemma RefundsKnownLater(s: State, e: Event)
    requires Inv(s)
    ensures PaymentsKnown(Step(s, e))
  {
    var s' := Step(s, e);
    Effect(s, e);
    if s'.payments == s.payments {
      assert forall key :: key in s.payments ==> RefundsKnown(s.payments[key].value.transactions, s.psp);
    } else if r, t :| Recorded(s, e, s', r, t) {
      RecordedIsKnown(s, e, s', r, t);
    } else {
      var k, p, extra :| Touched(s, e, s', k, p, extra);
      TouchedIsKnown(s, e, s', k, p, extra);
    }
  }

  lemma StepKeepsInv(s: State, e: Event)
    requires Inv(s)
    ensures Inv(Step(s, e))
  {
    var s' := Step(s, e);
    Effect(s, e);
    StepFrame(s, e);
    RefundsKnownLater(s, e);
    forall w: nat | w in s'.pipelines ensures PipelineOk(s', s'.pipelines[w]) {
      if PipelineAt(s', w) == PipelineAt(s, w) {
        PipelineOkLater(s, s', s.pipelines[w]);
      } else if e.StepPipeline? {
        PipelineStepOk(s, w, e.env);
      }
    }
    forall w: nat | w in s'.hooks ensures HookOk(s', s'.hooks[w]) {
      if HookAt(s', w) == HookAt(s, w) {
        assert HookOk(s, s.hooks[w]);
      } else if e.StepHook? {
        HookStepOk(s, w, e.env);
      }
    }
  }

  lemma {:induction false} RunKeepsInv(s: State, events: seq<Event>)
    requires Inv(s)
    ensures Inv(Run(s, events))
    decreases |events|
  {
    if events != [] {
      StepKeepsInv(s, events[0]);
      RunKeepsInv(Step(s, events[0]), events[1..]);
    }
  }
}
