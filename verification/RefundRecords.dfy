/** What the pipeline and the webhook tasks record of a refund, and which payment and charge they choose. */
module RefundRecords {
  import opened Wrappers
  import opened Payments
  import opened FloatAmounts
  import opened RefundProtocol
  import opened RefundInvariants
  import opened RefundTheorems
  import opened RefundCalls

  // ----- What is recorded of a refund -----

  /** Everything but the amount. */
  predicate Describes(t: Transaction, r: PspRefund, p: Payment) {
    && t.kind == Refund && t.interactionId == Some(r.id) && t.timestamp == r.created
    && t.fractionDigits == p.fractionDigits && UpperCase(t.currency, r.currency)
    && (t.state == TransactionPending <==> SameLetters(r.status, "pending"))
    && (t.state == TransactionFailure <==> SameLetters(r.status, "failed") || SameLetters(r.status, "canceled"))
  }

  /** The text in upper case. */
  predicate UpperCase(upper: string, s: string) {
    |upper| == |s| && forall i :: 0 <= i < |s| ==>
      upper[i] == if 'a' <= s[i] <= 'z' then (s[i] as int - 32) as char else s[i]
  }

  /** The text is the word, capital letters or not. */
  predicate SameLetters(s: string, word: string) {
    |s| == |word| && forall i :: 0 <= i < |s| ==>
      s[i] == word[i] || ('A' <= s[i] <= 'Z' && s[i] as int + 32 == word[i] as int)
  }

  lemma {:induction false} UpperIsUpperCase(s: string)
    ensures UpperCase(Upper(s), s)
  {
    if s != "" {
      UpperIsUpperCase(s[1..]);
      assert forall i :: 0 < i < |s| ==> s[i] == s[1..][i - 1] && Upper(s)[i] == Upper(s[1..])[i - 1];
    }
  }

  predicate LowerLetters(word: string) {
    forall i :: 0 <= i < |word| ==> 'a' <= word[i] <= 'z'
  }

  lemma {:induction false} LowerMatches(s: string, word: string)
    requires LowerLetters(word)
    ensures Lower(s) == word <==> SameLetters(s, word)
  {
    if s != "" && word != "" {
      LowerMatches(s[1..], word[1..]);
      assert Lower(s) == [Lower(s)[0]] + Lower(s[1..]) && word == [word[0]] + word[1..];
      assert forall i :: 0 < i < |s| ==> s[i] == s[1..][i - 1];
      assert forall i :: 0 < i < |word| ==> word[i] == word[1..][i - 1];
    }
  }

  lemma TransactionDescribes(id: string, r: PspRefund, cents: int, p: Payment)
    ensures Describes(RefundTransaction(id, r, cents, p), r, p) && RefundTransaction(id, r, cents, p).cents == cents
    ensures RefundTransaction(id, r, cents, p).id == id
  {
    UpperIsUpperCase(r.currency);
    LowerMatches(r.status, "pending");
    LowerMatches(r.status, "failed");
    LowerMatches(r.status, "canceled");
  }

  /** The amount recorded of a refund that PayPal reports: the refunded one, or a cent less. */
  predicate PayPalAmount(recorded: int, cents: int) {
    0 < cents && 3 * cents < 9_007_199_254_740_992
    ==> recorded == if LosesCent(cents) then cents - 1 else cents
  }

  lemma PayPalCentsAre(cents: int)
    ensures PayPalAmount(PayPalCents(cents), cents)
  {
    if 0 < cents && 3 * cents < 9_007_199_254_740_992 { PayPalLosesCentExactlyWhen(cents); }
  }

  /** The transaction that was added to the payment: its transactions are the old ones and this one. */
  predicate Added(before: seq<Transaction>, after: seq<Transaction>, t: Transaction) {
    after == before + [t]
  }

  /** The run has recorded the refund the provider answered with, in the payment it has read. */
  ghost predicate RunRecorded(s: State, p: Pipeline, s': State, t: Transaction) {
    && p.RecordTransaction? && p.response.RefundResponse? && p.kwargs.paymentIntentId.Some?
    && var key, refund := p.kwargs.paymentIntentId.value, p.response.refund;
       key in s.payments && p.kwargs.paymentData == Some(s.payments[key])
       && Added(TransactionsOf(s, key), TransactionsOf(s', key), t) && Describes(t, refund, s.payments[key].value)
       && (p.kwargs.psp != Some(PayPal) ==> t.cents == refund.cents)
       && (p.kwargs.psp == Some(PayPal) ==> PayPalAmount(t.cents, refund.cents))
  }

  /** In every run, what a pipeline run records is the refund of the provider's answer, with its amount: exactly for
      all providers but PayPal, and for PayPal up to the cent that its floats lose. */
  lemma RunRecordsRefund(start: State, events: seq<Event>, w: nat, env: Env)
    requires Init(start)
    ensures var s, s' := Run(start, events), Step(Run(start, events), StepPipeline(w, env));
            s'.recordings != s.recordings
            ==> w in s.pipelines && exists t :: RunRecorded(s, s.pipelines[w], s', t) && t.id == env.newId
  {
    var s := Run(start, events);
    Reachable(start, events);
    if w in s.pipelines {
      assert PipelineOk(s, s.pipelines[w]);
      if s.pipelines[w].RecordTransaction? {
        RecordedTransactionIs(s, w, s.pipelines[w], env);
      } else {
        OnlyRecordingRecords(s, w, s.pipelines[w], env);
      }
    }
  }

  lemma OnlyRecordingRecords(s: State, w: nat, p: Pipeline, env: Env)
    requires !p.RecordTransaction?
    ensures StepPipelineAt(s, w, p, env).recordings == s.recordings
  {
    match p
    case WriteStatus(_, _, _, _) => WriteStatusEffect(s, w, p, env);
    case FetchOrder(_, _, _, _) => FetchEffect(s, w, p, env);
    case FetchPayment(_) => FetchEffect(s, w, p, env);
    case CallStripe(_) => CallEffect(s, w, p, env);
    case CallPayPal(_, _, _) => CallEffect(s, w, p, env);
    case TagTransaction(_, _, _) => TagRecordsNothing(s, w, p, env);
    case _ => ReadEffect(s, w, p, env);
  }

  lemma TagRecordsNothing(s: State, w: nat, p: Pipeline, env: Env)
    requires p.TagTransaction?
    ensures StepTag(s, w, p.kwargs, p.payment, p.transactionId, env).recordings == s.recordings
  {
  }

  lemma RecordedTransactionIs(s: State, w: nat, p: Pipeline, env: Env)
    requires p.RecordTransaction? && Ready(s, p.kwargs, p.response)
    ensures var s' := StepRecord(s, w, p.kwargs, p.response, p.pspError, env);
            s'.recordings != s.recordings ==> exists t :: RunRecorded(s, p, s', t) && t.id == env.newId
  {
    var s' := StepRecord(s, w, p.kwargs, p.response, p.pspError, env);
    RecordAdds(s, w, p, env);
    if s'.recordings != s.recordings {
      var read := p.kwargs.paymentData.value;
      var cents := PipelineCents(p.kwargs.psp, p.response.refund);
      TransactionDescribes(env.newId, p.response.refund, cents, read.value);
      PayPalCentsAre(p.response.refund.cents);
      assert RunRecorded(s, p, s', RefundTransaction(env.newId, p.response.refund, cents, read.value));
    }
  }

  /** The refund as the webhook reports it; Google reports no currency. */
  function Reported(msg: HookMessage, p: Payment): PspRefund {
    if msg.kind == AndroidHook then msg.refund.(currency := p.currency) else msg.refund
  }

  /** The task has recorded the refund it was told of, in the payment it has read. */
  ghost predicate TaskRecorded(s: State, h: Hook, s': State, t: Transaction) {
    && h.HookWrite? && h.key in s.payments && h.read == s.payments[h.key]
    && Added(TransactionsOf(s, h.key), TransactionsOf(s', h.key), t)
    && Describes(t, Reported(h.msg, h.read.value), h.read.value)
    && match h.msg.kind
       case StripeHook => t.cents == h.msg.refund.cents
       case IosHook => t.cents == h.msg.refund.cents
       case PayPalHook => PayPalAmount(t.cents, h.msg.refund.cents)
       case AndroidHook => t.cents == h.read.value.amountPlanned
  }

  /** The same for webhook tasks: the reported amount for Stripe and Apple, up to a cent for PayPal, and the planned
      amount of the payment for Google, which reports none. */
  lemma TaskRecordsRefund(start: State, events: seq<Event>, w: nat, env: Env)
    requires Init(start)
    ensures var s, s' := Run(start, events), Step(Run(start, events), StepHook(w, env));
            s'.recordings != s.recordings
            ==> w in s.hooks && exists t :: TaskRecorded(s, s.hooks[w], s', t) && t.id == env.newId
  {
    var s := Run(start, events);
    Reachable(start, events);
    if w in s.hooks {
      assert HookOk(s, s.hooks[w]);
      if s.hooks[w].HookWrite? {
        TaskTransactionIs(s, w, s.hooks[w], env);
      } else {
        OnlyWritingTaskRecords(s, w, s.hooks[w], env);
      }
    }
  }

  lemma OnlyWritingTaskRecords(s: State, w: nat, h: Hook, env: Env)
    requires !h.HookWrite?
    ensures StepHookAt(s, w, h, env).recordings == s.recordings
  {
    match h
    case HookRead(_, _) => HookReadEffect(s, w, h, env);
    case HookFindOrder(_, _, _, _) => HookFindOrderEffect(s, w, h, env);
    case HookWriteOrder(_, _, _, _, _, _, _) => HookOrderEffect(s, w, h, env);
    case HookTag(_, _, _, _, _, _) => HookTagRecordsNothing(s, w, h, env);
    case _ => HookEndEffect(s, w, h, env);
  }

  lemma HookTagRecordsNothing(s: State, w: nat, h: Hook, env: Env)
    requires h.HookTag?
    ensures StepHookTag(s, w, h, env).recordings == s.recordings
  {
  }

  lemma TaskTransactionIs(s: State, w: nat, h: Hook, env: Env)
    requires h.HookWrite? && HookOk(s, h)
    ensures var s' := StepHookWrite(s, w, h.msg, h.retries, h.key, h.read, env);
            s'.recordings != s.recordings ==> exists t :: TaskRecorded(s, h, s', t) && t.id == env.newId
  {
    var s' := StepHookWrite(s, w, h.msg, h.retries, h.key, h.read, env);
    if s'.recordings != s.recordings {
      var t := HookTransaction(env.newId, h.msg, h.read.value);
      TransactionDescribes(env.newId, Reported(h.msg, h.read.value), HookCents(h.msg, h.read.value), h.read.value);
      PayPalCentsAre(h.msg.refund.cents);
      assert TransactionsOf(s', h.key) == TransactionsOf(s, h.key) + [t];
      assert TaskRecorded(s, h, s', t);
    }
  }

  // ----- Which payment, which charge, which items -----

  /** A payment that succeeded and has an interface id. */
  predicate Eligible(ref: PaymentRef) {
    ref.succeeded && ref.interfaceId.Some? && ref.interfaceId.value != ""
  }

  predicate FirstEligible(refs: seq<PaymentRef>, i: int) {
    0 <= i < |refs| && Eligible(refs[i]) && forall j :: 0 <= j < i ==> !Eligible(refs[j])
  }

  /** The payment chosen is the first that succeeded and has an interface id; none exactly when there is none. */
  lemma {:induction false} SuccessfulPaymentIs(refs: seq<PaymentRef>, p: PaymentRef)
    ensures SuccessfulPayment(refs) == Some(p) <==> exists i :: FirstEligible(refs, i) && refs[i] == p
    ensures SuccessfulPayment(refs) == None <==> forall i :: 0 <= i < |refs| ==> !Eligible(refs[i])
  {
    if refs != [] {
      var rest := refs[1..];
      SuccessfulPaymentIs(rest, p);
      assert forall j :: 0 < j < |refs| ==> refs[j] == rest[j - 1];
      if Eligible(refs[0]) {
        assert FirstEligible(refs, 0);
      } else {
        if i :| FirstEligible(rest, i) && rest[i] == p {
          assert refs[i + 1] == p && FirstEligible(refs, i + 1);
        }
        if i :| FirstEligible(refs, i) && refs[i] == p {
          assert rest[i - 1] == p && FirstEligible(rest, i - 1);
        }
      }
    }
  }

  predicate IsLastCharge(ts: seq<Transaction>, k: int) {
    0 <= k < |ts| && ts[k].kind == Charge && forall j :: k < j < |ts| ==> ts[j].kind != Charge
  }

  /** The charge whose id is handed to the provider is the last one. */
  lemma {:induction false} LastChargeIs(ts: seq<Transaction>)
    ensures forall k :: IsLastCharge(ts, k) ==> LastChargeInteraction(ts) == ts[k].interactionId
    ensures (forall k :: 0 <= k < |ts| ==> ts[k].kind != Charge) ==> LastChargeInteraction(ts) == None
  {
    if ts != [] {
      var n := |ts| - 1;
      LastChargeIs(ts[..n]);
      forall k | IsLastCharge(ts, k) ensures LastChargeInteraction(ts) == ts[k].interactionId {
        if k < n { assert IsLastCharge(ts[..n], k); }
      }
    }
  }

  /** The return items of an order are those of its returns, one return after the other. */
  lemma {:induction false} ReturnItemsConcat(a: seq<seq<ReturnItem>>, b: seq<seq<ReturnItem>>)
    ensures ReturnItems(a + b) == ReturnItems(a) + ReturnItems(b)
    ensures |b| == 1 ==> ReturnItems(b) == b[0]
    decreases |b|
  {
    if b == [] {
      assert a + b == a;
    } else {
      var n := |b| - 1;
      assert (a + b)[..|a + b| - 1] == a + b[..n];
      ReturnItemsConcat(a, b[..n]);
      assert n == 0 ==> b[..n] == [];
    }
  }

  // ----- Ids -----

  /** The return ids of a message are those of its lines, in order. */
  lemma {:induction false} ReturnIdsAre(lines: seq<ReturnLine>)
    ensures |ReturnIds(lines)| == |lines|
    ensures forall j :: 0 <= j < |lines| ==> ReturnIds(lines)[j] == lines[j].returnId
  {
    if lines != [] { ReturnIdsAre(lines[1..]); }
  }

  lemma {:induction false} ItemIdsAre(items: seq<ReturnItem>)
    ensures |ItemIds(items)| == |items|
    ensures forall j :: 0 <= j < |items| ==> ItemIds(items)[j] == items[j].id
  {
    if items != [] { ItemIdsAre(items[1..]); }
  }

  // ----- The ids a transaction is tagged with -----

  function BeforeComma(s: string): (r: string)
    ensures |r| <= |s|
  {
    if s == "" || s[0] == ',' then "" else [s[0]] + BeforeComma(s[1..])
  }

  /** Reading the ids back. */
  function SplitIds(s: string): seq<string>
    decreases |s|
  {
    var n := |BeforeComma(s)|;
    if |s| < n + 2 || s[n..n + 2] != ", " then [s] else [BeforeComma(s)] + SplitIds(s[n + 2..])
  }

  predicate CommaFree(s: string) {
    forall i :: 0 <= i < |s| ==> s[i] != ','
  }

  lemma {:induction false} BeforeFirstComma(s: string, rest: string)
    requires CommaFree(s)
    ensures BeforeComma(s + ", " + rest) == s && BeforeComma(s) == s
  {
    if s != "" {
      BeforeFirstComma(s[1..], rest);
      assert (s + ", " + rest)[1..] == s[1..] + ", " + rest;
      assert s == [s[0]] + s[1..];
    }
  }

  /** The tag keeps every id, in order. */
  lemma {:induction false} TagKeepsIds(ids: seq<string>)
    requires ids != [] && forall i :: 0 <= i < |ids| ==> CommaFree(ids[i])
    ensures SplitIds(JoinIds(ids)) == ids
  {
    if |ids| == 1 {
      BeforeFirstComma(ids[0], "");
    } else {
      var rest := JoinIds(ids[1..]);
      TagKeepsIds(ids[1..]);
      BeforeFirstComma(ids[0], rest);
      var n, s := |ids[0]|, JoinIds(ids);
      assert s == ids[0] + ", " + rest && s[n..n + 2] == ", " && s[n + 2..] == rest;
    }
  }

  // ----- Which payment is asked for -----

  ghost predicate Chosen(k: Kwargs) {
    match SuccessfulPayment(k.order.value.payments)
    case Some(ref) => k.psp == Some(ref.psp) && k.paymentIntentId == ref.interfaceId
    case None => k.psp == None && k.paymentIntentId == None
  }

  ghost predicate HasChosen(p: Pipeline) {
    p.FetchPayment? || p.CallStripe? || p.CallPayPal? ==> Chosen(p.kwargs)
  }

  /** A run keeps its choice until it has called. */
  lemma ChoiceComesFrom(s: State, w: nat, p: Pipeline, env: Env)
    requires w in s.pipelines && s.pipelines[w] == p && PipelineOk(s, p) && HasChosen(p)
    ensures var next := PipelineAt(StepPipelineAt(s, w, p, env), w); next.Some? ==> HasChosen(next.value)
  {
    if p.FetchOrder? || p.FetchPayment? {
      FetchChooses(s, w, p, env);
    } else {
      CallsComeFrom(s, w, p, env);
      NoLaterFetch(s, w, p, env);
    }
  }

  lemma FetchChooses(s: State, w: nat, p: Pipeline, env: Env)
    requires (p.FetchOrder? || p.FetchPayment?) && HasChosen(p)
    ensures var next := PipelineAt(StepPipelineAt(s, w, p, env), w); next.Some? ==> HasChosen(next.value)
  {
  }

  lemma NoLaterFetch(s: State, w: nat, p: Pipeline, env: Env)
    requires w in s.pipelines && s.pipelines[w] == p && PipelineOk(s, p) && !p.FetchOrder? && !p.FetchPayment?
    ensures var next := PipelineAt(StepPipelineAt(s, w, p, env), w); next.Some? ==> !next.value.FetchPayment?
  {
    if p.WriteStatus? {
      WriteStatusEnds(s, w, p.kwargs, p.response, p.pspError, p.payment, env);
    } else if p.RecordTransaction? {
      RecordEnds(s, w, p.kwargs, p.response, p.pspError, env);
    }
  }

  /** The call is for the first payment of the order that succeeded and has an interface id. */
  ghost predicate CallsChosen(c: PspCall) {
    exists i :: FirstEligible(c.order.payments, i) && c.order.payments[i].interfaceId == Some(c.key)
  }

  ghost predicate AllChosen(s: State) {
    (forall w: nat :: w in s.pipelines ==> HasChosen(s.pipelines[w]))
    && forall i :: 0 <= i < |s.calls| ==> CallsChosen(s.calls[i])
  }

  lemma ChosenCall(w: nat, k: Kwargs)
    requires Chosen(k) && k.paymentIntentId.Some?
    ensures CallsChosen(CallOf(w, k))
  {
    var ref := SuccessfulPayment(k.order.value.payments).value;
    SuccessfulPaymentIs(k.order.value.payments, ref);
  }

  lemma NewCallIsChosen(s: State, e: Event)
    requires Inv(s) && AllChosen(s)
    ensures var s' := Step(s, e); forall i :: 0 <= i < |s'.calls| ==> CallsChosen(s'.calls[i])
  {
    StepCalls(s, e);
    if e.StepPipeline? && e.pipeline in s.pipelines {
      var p := s.pipelines[e.pipeline];
      assert PipelineOk(s, p) && HasChosen(p);
      if p.CallStripe? || p.CallPayPal? {
        CallAppends(s, e.pipeline, e.env);
        if p.kwargs.paymentIntentId.Some? { ChosenCall(e.pipeline, p.kwargs); }
      } else {
        OnlyCallStepsCall(s, e.pipeline, p, e.env);
      }
    }
  }

  lemma StepKeepsChosen(s: State, e: Event)
    requires Inv(s) && AllChosen(s)
    ensures AllChosen(Step(s, e))
  {
    var s' := Step(s, e);
    StepFrame(s, e);
    NewCallIsChosen(s, e);
    forall w: nat | w in s'.pipelines ensures HasChosen(s'.pipelines[w]) {
      assert PipelineAt(s', w) == Some(s'.pipelines[w]);
      if PipelineAt(s', w) == PipelineAt(s, w) {
        assert HasChosen(s.pipelines[w]);
      } else if e.StepPipeline? {
        assert HasChosen(s.pipelines[w]) && PipelineOk(s, s.pipelines[w]);
        ChoiceComesFrom(s, w, s.pipelines[w], e.env);
      }
    }
  }

  lemma {:induction false} RunKeepsChosen(s: State, events: seq<Event>)
    requires Inv(s) && AllChosen(s)
    ensures AllChosen(Run(s, events))
    decreases |events|
  {
    if events != [] {
      StepKeepsInv(s, events[0]);
      StepKeepsChosen(s, events[0]);
      RunKeepsChosen(Step(s, events[0]), events[1..]);
    }
  }

  /** In every run, every call to a provider asks for a refund of the first payment that succeeded and has an
      interface id, of the order as the run read it. */
  lemma CallsAreForSucceededPayment(start: State, events: seq<Event>, i: nat)
    requires Init(start)
    ensures i < |Run(start, events).calls| ==> CallsChosen(Run(start, events).calls[i])
  {
    RunKeepsChosen(start, events);
  }
}
