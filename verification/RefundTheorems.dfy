/** What holds in every run of the refund protocol. */
module RefundTheorems {
  import opened Wrappers
  import opened Payments
  import opened RefundProtocol
  import opened RefundInvariants

  lemma Reachable(s: State, events: seq<Event>)
    requires Init(s)
    ensures Inv(Run(s, events))
  {
    RunKeepsInv(s, events);
  }

  /** The fallback lookup of the recording step is dead code: a run with a payment service provider
      always comes with the payment it read. */
  lemma FallbackNeverReached(s: State, events: seq<Event>, w: nat)
    requires Init(s)
    ensures w in Run(s, events).pipelines ==> !Run(s, events).pipelines[w].LookUpPayment?
  {
    Reachable(s, events);
    if w in Run(s, events).pipelines {
      assert PipelineOk(Run(s, events), Run(s, events).pipelines[w]);
    }
  }

  // ----- Transactions -----

  function TransactionsOf(s: State, key: string): seq<Transaction> {
    if key in s.payments then s.payments[key].value.transactions else []
  }

  lemma HasRefundAfterAppend(ts: seq<Transaction>, extra: seq<Transaction>, id: Option<string>)
    requires HasRefund(ts, id)
    ensures HasRefund(ts + extra, id)
  {
    var i :| 0 <= i < |ts| && IsRefundOf(ts[i], id);
    assert IsRefundOf((ts + extra)[i], id);
  }

  /** Refund ids in the order their transactions were added. */
  function RefundIds(ts: seq<Transaction>): seq<Option<string>> {
    if ts == [] then []
    else RefundIds(ts[..|ts| - 1]) + if ts[|ts| - 1].kind == Refund then [ts[|ts| - 1].interactionId] else []
  }

  function RecordedIds(recordings: seq<Recording>, key: string): seq<Option<string>> {
    if recordings == [] then []
    else
      RecordedIds(recordings[..|recordings| - 1], key)
      + (var r := recordings[|recordings| - 1]; if r.key == key then [Some(r.refundId)] else [])
  }

  lemma RefundIdsAppend(ts: seq<Transaction>, t: Transaction)
    ensures RefundIds(ts + [t]) == RefundIds(ts) + if t.kind == Refund then [t.interactionId] else []
  {
    assert (ts + [t])[..|ts|] == ts;
  }

  ghost predicate TransactionsChange(s: State, e: Event, s': State, key: string) {
    var before, after := TransactionsOf(s, key), TransactionsOf(s', key);
    key in s'.payments
    && (after == before
        || (exists t :: e == ChargeElsewhere(key, t) && t.kind != Refund && after == before + [t])
        || (exists r: Recording, t :: r.key == key && Recorded(s, e, s', r, t) && after == before + [t]))
  }

  lemma RecordedChange(s: State, e: Event, s': State, r: Recording, t: Transaction, key: string)
    requires key in s.payments && Recorded(s, e, s', r, t)
    ensures TransactionsChange(s, e, s', key)
  {
    if r.key == key {
      assert TransactionsOf(s', key) == TransactionsOf(s, key) + [t];
    }
  }

  lemma TouchedChange(s: State, e: Event, s': State, k: string, p: Payment, extra: seq<Transaction>, key: string)
    requires key in s.payments && Touched(s, e, s', k, p, extra)
    ensures TransactionsChange(s, e, s', key)
  {
    if k == key && extra != [] {
      assert extra == [extra[0]];
      assert TransactionsOf(s', key) == TransactionsOf(s, key) + [extra[0]];
    } else {
      assert TransactionsOf(s', key) == TransactionsOf(s, key);
    }
  }

  /** What one step does to the transactions of one payment. */
  lemma StepTransactions(s: State, e: Event, key: string)
    requires Inv(s) && key in s.payments
    ensures var s' := Step(s, e);
            var before, after := TransactionsOf(s, key), TransactionsOf(s', key);
            key in s'.payments
            && (after == before
                || (exists t :: e == ChargeElsewhere(key, t) && t.kind != Refund && after == before + [t])
                || (exists r: Recording, t :: r.key == key && Recorded(s, e, s', r, t) && after == before + [t]))
  {
    var s' := Step(s, e);
    Effect(s, e);
    if s'.payments == s.payments {
      assert TransactionsChange(s, e, s', key);
    } else if r, t :| Recorded(s, e, s', r, t) {
      RecordedChange(s, e, s', r, t, key);
    } else {
      var k, p, extra :| Touched(s, e, s', k, p, extra);
      TouchedChange(s, e, s', k, p, extra, key);
    }
  }

  lemma StepRecordings(s: State, e: Event)
    requires Inv(s)
    ensures var s' := Step(s, e);
            s'.recordings == s.recordings
            || (exists r, t :: Recorded(s, e, s', r, t))
  {
    Effect(s, e);
  }

  lemma {:induction false} RecordedIdsConcat(a: seq<Recording>, b: seq<Recording>, key: string)
    ensures RecordedIds(a + b, key) == RecordedIds(a, key) + RecordedIds(b, key)
    decreases |b|
  {
    if b == [] {
      assert a + b == a;
    } else {
      assert (a + b)[..|a + b| - 1] == a + b[..|b| - 1];
      RecordedIdsConcat(a, b[..|b| - 1], key);
    }
  }

  lemma RecordedIdsSplit(a: seq<Recording>, b: seq<Recording>, c: seq<Recording>, key: string)
    requires a <= b <= c
    ensures RecordedIds(c[|a|..], key) == RecordedIds(b[|a|..], key) + RecordedIds(c[|b|..], key)
  {
    RecordedIdsConcat(b[|a|..], c[|b|..], key);
    assert c[|a|..] == b[|a|..] + c[|b|..];
  }

  /** Transactions are only added, and the added refunds are the accepted recordings. */
  ghost predicate Accounted(s: State, t: State, key: string) {
    && key in t.payments && s.recordings <= t.recordings
    && TransactionsOf(s, key) <= TransactionsOf(t, key)
    && RefundIds(TransactionsOf(t, key))
       == RefundIds(TransactionsOf(s, key)) + RecordedIds(t.recordings[|s.recordings|..], key)
  }

  lemma RecordedAccounted(s: State, e: Event, s': State, r: Recording, t: Transaction, key: string)
    requires key in s.payments && Recorded(s, e, s', r, t)
    ensures Accounted(s, s', key)
  {
    RefundIdsAppend(TransactionsOf(s, r.key), t);
    assert s'.recordings[|s.recordings|..] == [r];
    assert [r][..|[r]| - 1] == [];
    assert RecordedIds([r], key) == if r.key == key then [Some(r.refundId)] else [];
  }

  lemma TouchedAccounted(s: State, e: Event, s': State, k: string, p: Payment, extra: seq<Transaction>, key: string)
    requires key in s.payments && Touched(s, e, s', k, p, extra)
    ensures Accounted(s, s', key)
  {
    var before, after := TransactionsOf(s, k), TransactionsOf(s', k);
    assert after == before + extra;
    if extra == [] {
      assert after == before;
    } else {
      assert after == before + [extra[0]];
      RefundIdsAppend(before, extra[0]);
      assert RefundIds(after) == RefundIds(before);
    }
    assert s'.recordings[|s.recordings|..] == [];
  }

  lemma StepAccounted(s: State, e: Event, key: string)
    requires Inv(s) && key in s.payments
    ensures Accounted(s, Step(s, e), key)
  {
    var s' := Step(s, e);
    Effect(s, e);
    if s'.payments == s.payments && s'.recordings == s.recordings {
      assert s'.recordings[|s.recordings|..] == [];
    } else if r, t :| Recorded(s, e, s', r, t) {
      RecordedAccounted(s, e, s', r, t, key);
    } else {
      var k, p, extra :| Touched(s, e, s', k, p, extra);
      TouchedAccounted(s, e, s', k, p, extra, key);
    }
  }

  lemma ConcatTwice(x: seq<Option<string>>, y: seq<Option<string>>, z: seq<Option<string>>, a: seq<Option<string>>,
                    b: seq<Option<string>>)
    requires y == x + a && z == y + b
    ensures z == x + (a + b)
  {
  }

  lemma AccountedTransitive(s: State, s': State, t: State, key: string)
    requires Accounted(s, s', key) && Accounted(s', t, key)
    ensures Accounted(s, t, key)
  {
    RecordedIdsSplit(s.recordings, s'.recordings, t.recordings, key);
    ConcatTwice(RefundIds(TransactionsOf(s, key)), RefundIds(TransactionsOf(s', key)),
                RefundIds(TransactionsOf(t, key)),
                RecordedIds(s'.recordings[|s.recordings|..], key), RecordedIds(t.recordings[|s'.recordings|..], key));
  }

  /** Transactions are never removed or reordered, and the refunds among the new ones are exactly the
      accepted recordings, in order. */
  lemma {:induction false} RecordingsAccountForRefunds(s: State, events: seq<Event>, key: string)
    requires Inv(s) && key in s.payments
    ensures var t := Run(s, events);
            key in t.payments && s.recordings <= t.recordings
            && TransactionsOf(s, key) <= TransactionsOf(t, key)
            && RefundIds(TransactionsOf(t, key))
               == RefundIds(TransactionsOf(s, key)) + RecordedIds(t.recordings[|s.recordings|..], key)
    decreases |events|
  {
    if events == [] {
      assert s.recordings[|s.recordings|..] == [];
    } else {
      var s', t := Step(s, events[0]), Run(s, events);
      StepKeepsInv(s, events[0]);
      StepAccounted(s, events[0], key);
      RecordingsAccountForRefunds(s', events[1..], key);
      AccountedTransitive(s, s', t, key);
    }
  }

  // ----- Amounts -----

  function RecordedCents(recordings: seq<Recording>, key: string): int {
    if recordings == [] then 0
    else
      RecordedCents(recordings[..|recordings| - 1], key)
      + (var r := recordings[|recordings| - 1]; if r.key == key then r.cents else 0)
  }

  lemma SumOfAppend(ts: seq<Transaction>, t: Transaction, kind: Kind)
    ensures SumOf(ts + [t], kind) == SumOf(ts, kind) + if t.kind == kind then t.cents else 0
  {
    assert (ts + [t])[..|ts|] == ts;
  }

  /** What is recorded as refunded beyond the accepted recordings. */
  function Unaccounted(s: State, key: string): int {
    SumOf(TransactionsOf(s, key), Refund) - RecordedCents(s.recordings, key)
  }

  lemma RecordedKeepsTotals(s: State, e: Event, s': State, r: Recording, t: Transaction, key: string)
    requires key in s.payments && Recorded(s, e, s', r, t)
    ensures Unaccounted(s', key) == Unaccounted(s, key)
  {
    SumOfAppend(TransactionsOf(s, r.key), t, Refund);
    assert s'.recordings[..|s'.recordings| - 1] == s.recordings;
  }

  lemma TouchedKeepsTotals(s: State, e: Event, s': State, k: string, p: Payment, extra: seq<Transaction>, key: string)
    requires key in s.payments && Touched(s, e, s', k, p, extra)
    ensures Unaccounted(s', key) == Unaccounted(s, key)
  {
    var before := TransactionsOf(s, k);
    if extra == [] {
      assert p.transactions == before;
    } else {
      assert p.transactions == before + [extra[0]];
      SumOfAppend(before, extra[0], Refund);
    }
  }

  lemma StepKeepsTotals(s: State, e: Event, key: string)
    requires Inv(s) && key in s.payments
    ensures key in Step(s, e).payments && Unaccounted(Step(s, e), key) == Unaccounted(s, key)
  {
    var s' := Step(s, e);
    Effect(s, e);
    if r, t :| Recorded(s, e, s', r, t) {
      RecordedKeepsTotals(s, e, s', r, t, key);
    } else if k, p, extra :| Touched(s, e, s', k, p, extra) {
      TouchedKeepsTotals(s, e, s', k, p, extra, key);
    }
  }

  lemma {:induction false} RunKeepsTotals(s: State, events: seq<Event>, key: string)
    requires Inv(s) && key in s.payments
    ensures key in Run(s, events).payments && Unaccounted(Run(s, events), key) == Unaccounted(s, key)
    decreases |events|
  {
    if events != [] {
      StepKeepsInv(s, events[0]);
      StepKeepsTotals(s, events[0], key);
      RunKeepsTotals(Step(s, events[0]), events[1..], key);
    }
  }

  /** Conservation: in every run the amount a payment shows as refunded is what it showed at the start
      plus the amounts of the accepted recordings, each counted once. */
  lemma RefundedTotalIsRecorded(s: State, events: seq<Event>, key: string)
    requires Init(s) && key in s.payments
    ensures var t := Run(s, events);
            SumOf(TransactionsOf(t, key), Refund)
                == SumOf(TransactionsOf(s, key), Refund) + RecordedCents(t.recordings, key)
  {
    RunKeepsTotals(s, events, key);
  }

  // ----- At most one transaction per refund -----

  /** The recorded refund was in the payment already that it was added to. */
  predicate Duplicates(r: Recording) {
    HasRefund(r.read.value.transactions, Some(r.refundId))
  }

  ghost predicate NoDuplicates(recordings: seq<Recording>, key: string) {
    forall i :: 0 <= i < |recordings| && recordings[i].key == key ==> !Duplicates(recordings[i])
  }

  ghost predicate UniqueExactly(s: State) {
    && (forall key ::
       key in s.payments ==> (UniqueRefunds(s.payments[key].value.transactions) <==> NoDuplicates(s.recordings, key)))
    && forall i :: 0 <= i < |s.recordings| && !s.recordings[i].byPipeline ==> !Duplicates(s.recordings[i])
  }

  lemma NoDuplicatesAppend(recordings: seq<Recording>, r: Recording, key: string)
    ensures NoDuplicates(recordings + [r], key) <==> NoDuplicates(recordings, key) && (r.key == key ==> !Duplicates(r))
  {
    var all := recordings + [r];
    assert all[|recordings|] == r;
    assert forall i :: 0 <= i < |recordings| ==> all[i] == recordings[i];
  }

  lemma RecordedKeepsUniqueExactly(s: State, e: Event, s': State, r: Recording, t: Transaction)
    requires UniqueExactly(s) && Recorded(s, e, s', r, t)
    ensures UniqueExactly(s')
  {
    forall key | key in s'.payments
      ensures UniqueRefunds(s'.payments[key].value.transactions) <==> NoDuplicates(s'.recordings, key) {
      NoDuplicatesAppend(s.recordings, r, key);
      UniqueAfterAppend(r.read.value.transactions, t);
    }
  }

  lemma TouchedKeepsUniqueExactly(s: State, e: Event, s': State, k: string, p: Payment, extra: seq<Transaction>)
    requires UniqueExactly(s) && Touched(s, e, s', k, p, extra)
    ensures UniqueExactly(s')
  {
    var before := s.payments[k].value.transactions;
    if extra == [] {
      assert p.transactions == before;
    } else {
      assert p.transactions == before + [extra[0]];
      UniqueAfterAppend(before, extra[0]);
    }
  }

  lemma StepKeepsUniqueExactly(s: State, e: Event)
    requires Inv(s) && UniqueExactly(s)
    ensures UniqueExactly(Step(s, e))
  {
    var s' := Step(s, e);
    Effect(s, e);
    if r, t :| Recorded(s, e, s', r, t) {
      RecordedKeepsUniqueExactly(s, e, s', r, t);
    } else if key, p, extra :| Touched(s, e, s', key, p, extra) {
      TouchedKeepsUniqueExactly(s, e, s', key, p, extra);
    }
  }

  lemma {:induction false} RunKeepsUniqueExactly(s: State, events: seq<Event>)
    requires Inv(s) && UniqueExactly(s)
    ensures UniqueExactly(Run(s, events))
    decreases |events|
  {
    if events != [] {
      StepKeepsUniqueExactly(s, events[0]);
      StepKeepsInv(s, events[0]);
      RunKeepsUniqueExactly(Step(s, events[0]), events[1..]);
    }
  }

  /** In every run, with no hypothesis on the provider: a payment holds some refund twice exactly when
      a pipeline run recorded a refund that was in the payment it had read, which is the check the
      webhook tasks make before they write and the pipeline does not. */
  lemma UniqueExactlyWhenPipelinesCheck(s: State, events: seq<Event>, key: string)
    requires Init(s) && key in s.payments
    ensures var t := Run(s, events);
            key in t.payments
            && (UniqueRefunds(t.payments[key].value.transactions)
                <==> forall i :: 0 <= i < |t.recordings| && t.recordings[i].key == key && t.recordings[i].byPipeline
                       ==> !HasRefund(t.recordings[i].read.value.transactions, Some(t.recordings[i].refundId)))
  {
    RecordingsAccountForRefunds(s, events, key);
    RunKeepsUniqueExactly(s, events);
    var t := Run(s, events);
    if NoDuplicates(t.recordings, key) {
      forall i | 0 <= i < |t.recordings| && t.recordings[i].key == key && t.recordings[i].byPipeline
        ensures !HasRefund(t.recordings[i].read.value.transactions, Some(t.recordings[i].refundId)) {
        assert !Duplicates(t.recordings[i]);
      }
    } else {
      var i :| 0 <= i < |t.recordings| && t.recordings[i].key == key && Duplicates(t.recordings[i]);
      assert HasRefund(t.recordings[i].read.value.transactions, Some(t.recordings[i].refundId));
    }
  }

  /** The provider answers a call with a refund that did not exist when the run read its payment. A
      created refund never does; the answer for a charge that was refunded already may. */
  ghost predicate FreshAnswer(s: State, e: Event) {
    e.StepPipeline? && e.pipeline in s.pipelines
    && (s.pipelines[e.pipeline].CallStripe? || s.pipelines[e.pipeline].CallPayPal?) && e.env.answer.Existing?
    ==> e.env.answer.refund.id !in s.pipelines[e.pipeline].kwargs.refundsThen
  }

  ghost predicate FreshAnswers(s: State, events: seq<Event>)
    decreases |events|
  {
    events == [] || (FreshAnswer(s, events[0]) && FreshAnswers(Step(s, events[0]), events[1..]))
  }

  ghost predicate ResponseFresh(p: Pipeline) {
    (p.CallPayPal? || p.RecordTransaction?) && p.response.RefundResponse?
    ==> p.kwargs.paymentData.Some?
        && !HasRefund(p.kwargs.paymentData.value.value.transactions, Some(p.response.refund.id))
  }

  ghost predicate ResponsesFresh(s: State) {
    forall w: nat :: w in s.pipelines ==> ResponseFresh(s.pipelines[w])
  }

  lemma UnknownIsNotRecorded(s: State, k: Kwargs, id: string)
    requires Ready(s, k, NoResponse) && k.paymentIntentId.Some? && id !in k.refundsThen
    ensures !HasRefund(k.paymentData.value.value.transactions, Some(id))
  {
  }

  lemma CallIsFresh(s: State, w: nat, env: Env)
    requires w in s.pipelines && (s.pipelines[w].CallStripe? || s.pipelines[w].CallPayPal?)
    requires PipelineOk(s, s.pipelines[w]) && ResponseFresh(s.pipelines[w])
    requires env.answer.Existing? ==> env.answer.refund.id !in s.pipelines[w].kwargs.refundsThen
    ensures ResponseFresh(StepPipelineAt(s, w, s.pipelines[w], env).pipelines[w])
  {
    var k := s.pipelines[w].kwargs;
    match env.answer
    case Created(r) => if k.paymentIntentId.Some? && r.id !in s.psp { UnknownIsNotRecorded(s, k, r.id); }
    case Existing(r) => if k.paymentIntentId.Some? { UnknownIsNotRecorded(s, k, r.id); }
    case _ =>
  }

  lemma FetchIsFresh(s: State, w: nat, p: Pipeline, env: Env)
    requires p.FetchOrder? || p.FetchPayment?
    ensures var next := PipelineAt(StepPipelineAt(s, w, p, env), w); next.Some? ==> ResponseFresh(next.value)
  {
  }

  lemma OtherStepIsFresh(s: State, w: nat, env: Env)
    requires w in s.pipelines && !s.pipelines[w].CallStripe? && !s.pipelines[w].CallPayPal?
             && PipelineOk(s, s.pipelines[w])
    requires ResponseFresh(s.pipelines[w])
    ensures var p := PipelineAt(StepPipelineAt(s, w, s.pipelines[w], env), w); p.Some? ==> ResponseFresh(p.value)
  {
    match s.pipelines[w]
    case FetchOrder(_, _, _, _) => FetchIsFresh(s, w, s.pipelines[w], env);
    case FetchPayment(_) => FetchIsFresh(s, w, s.pipelines[w], env);
    case RecordTransaction(k, response, pspError) => RecordEnds(s, w, k, response, pspError, env);
    case ReadForStatus(k, response, pspError) => ReadForStatusEnds(s, w, k, response, pspError, env);
    case WriteStatus(k, response, pspError, payment) => WriteStatusEnds(s, w, k, response, pspError, payment, env);
    case _ =>
  }

  lemma StepKeepsFresh(s: State, e: Event)
    requires Inv(s) && ResponsesFresh(s) && FreshAnswer(s, e)
    ensures ResponsesFresh(Step(s, e))
  {
    var s' := Step(s, e);
    StepFrame(s, e);
    forall w: nat | w in s'.pipelines ensures ResponseFresh(s'.pipelines[w]) {
      if PipelineAt(s', w) == PipelineAt(s, w) {
        assert ResponseFresh(s.pipelines[w]);
      } else if e.StepPipeline? {
        if s.pipelines[w].CallStripe? || s.pipelines[w].CallPayPal? {
          CallIsFresh(s, w, e.env);
        } else {
          assert ResponseFresh(s.pipelines[w]);
          OtherStepIsFresh(s, w, e.env);
        }
      }
    }
  }

  ghost predicate AllUnique(s: State) {
    forall key :: key in s.payments ==> UniqueRefunds(s.payments[key].value.transactions)
  }

  lemma RecordedKeepsUnique(s: State, e: Event, s': State, r: Recording, t: Transaction)
    requires AllUnique(s) && Recorded(s, e, s', r, t) && !Duplicates(r)
    ensures AllUnique(s')
  {
    assert UniqueRefunds(s.payments[r.key].value.transactions);
    UniqueAfterAppend(r.read.value.transactions, t);
  }

  lemma TouchedKeepsUnique(s: State, e: Event, s': State, k: string, p: Payment, extra: seq<Transaction>)
    requires AllUnique(s) && Touched(s, e, s', k, p, extra)
    ensures AllUnique(s')
  {
    var before := s.payments[k].value.transactions;
    assert UniqueRefunds(before);
    if extra == [] {
      assert p.transactions == before;
    } else {
      assert p.transactions == before + [extra[0]];
      UniqueAfterAppend(before, extra[0]);
    }
  }

  lemma StepKeepsUnique(s: State, e: Event)
    requires Inv(s) && ResponsesFresh(s) && AllUnique(s)
    ensures AllUnique(Step(s, e))
  {
    var s' := Step(s, e);
    Effect(s, e);
    if s'.payments == s.payments {
      assert AllUnique(s');
    } else if r, t :| Recorded(s, e, s', r, t) {
      if r.byPipeline {
        assert ResponseFresh(s.pipelines[e.pipeline]);
      }
      RecordedKeepsUnique(s, e, s', r, t);
    } else {
      var k, p, extra :| Touched(s, e, s', k, p, extra);
      TouchedKeepsUnique(s, e, s', k, p, extra);
    }
  }

  lemma {:induction false} RunKeepsUnique(s: State, events: seq<Event>)
    requires Inv(s) && ResponsesFresh(s) && AllUnique(s) && FreshAnswers(s, events)
    ensures AllUnique(Run(s, events))
    decreases |events|
  {
    if events != [] {
      StepKeepsUnique(s, events[0]);
      StepKeepsFresh(s, events[0]);
      StepKeepsInv(s, events[0]);
      RunKeepsUnique(Step(s, events[0]), events[1..]);
    }
  }

  /** In every state of every run, however pipelines and webhook tasks interleave, fail, conflict and
      are retried, no payment holds two transactions for one refund of the provider, as long as no
      call is answered with a refund that existed when the run read its payment. */
  lemma OneTransactionPerRefund(s: State, events: seq<Event>, key: string)
    requires Init(s) && FreshAnswers(s, events)
    ensures key in Run(s, events).payments ==> UniqueRefunds(Run(s, events).payments[key].value.transactions)
  {
    RunKeepsUnique(s, events);
  }

  lemma ExistingRefundAnswered(s: State, w: nat, k: Kwargs, refund: PspRefund, env: Env)
    requires w in s.pipelines && s.pipelines[w] == CallStripe(k) && env.answer == Existing(refund) && refund.id in s.psp
    requires k.psp == Some(Stripe) && k.paymentIntentId.Some? && k.amount != 0 && !k.hasBeenRefunded
    ensures var s' := Step(Step(s, StepPipeline(w, env)), StepPipeline(w, env));
            s'.payments == s.payments && w in s'.pipelines
                && s'.pipelines[w] == RecordTransaction(k, RefundResponse(refund), false)
  {
    var s1 := Step(s, StepPipeline(w, env));
    assert s1.pipelines[w] == CallPayPal(k, RefundResponse(refund), false);
  }

  lemma CurrentPaymentRecorded(s: State, w: nat, k: Kwargs, refund: PspRefund, env: Env)
    requires w in s.pipelines && s.pipelines[w] == RecordTransaction(k, RefundResponse(refund), false)
             && env.fault == NoFault
    requires !k.hasBeenRefunded && k.paymentIntentId.Some? && k.paymentIntentId.value in s.payments
    requires k.paymentData == Some(s.payments[k.paymentIntentId.value])
    ensures TransactionsOf(Step(s, StepPipeline(w, env)), k.paymentIntentId.value)
            == k.paymentData.value.value.transactions
                + [RefundTransaction(env.newId, refund, PipelineCents(k.psp, refund), k.paymentData.value.value)]
    ensures k.paymentIntentId.value in Step(s, StepPipeline(w, env)).payments
  {
  }

  lemma RunThree(s: State, e: Event, e': Event, e'': Event)
    ensures Run(s, [e, e', e'']) == Step(Step(Step(s, e), e'), e'')
  {
    var es := [e, e', e''];
    assert es[1..][1..] == [e''];
    assert es[1..] == [e', e''];
    assert [e''][1..] == [];
    assert Run(Step(s, e), [e', e'']) == Run(Step(Step(s, e), e'), [e', e''][1..]);
  }

  lemma ExistingAnswerRecordedTwice(s: State, w: nat, k: Kwargs, refund: PspRefund, env: Env)
    requires w in s.pipelines && s.pipelines[w] == CallStripe(k)
    requires k.psp == Some(Stripe) && k.paymentIntentId.Some? && k.amount != 0 && !k.hasBeenRefunded
    requires k.paymentIntentId.value in s.payments && k.paymentData == Some(s.payments[k.paymentIntentId.value])
    requires HasRefund(k.paymentData.value.value.transactions, Some(refund.id)) && refund.id in s.psp
    requires env.fault == NoFault && env.answer == Existing(refund)
    ensures var t := Run(s, [StepPipeline(w, env), StepPipeline(w, env), StepPipeline(w, env)]);
            k.paymentIntentId.value in t.payments
                && !UniqueRefunds(t.payments[k.paymentIntentId.value].value.transactions)
  {
    var e := StepPipeline(w, env);
    RunThree(s, e, e, e);
    ExistingRefundAnswered(s, w, k, refund, env);
    CurrentPaymentRecorded(Step(Step(s, e), e), w, k, refund, env);
    UniqueAfterAppend(k.paymentData.value.value.transactions,
                      RefundTransaction(env.newId, refund, PipelineCents(k.psp, refund), k.paymentData.value.value));
  }

  /** What a run has put together from the order and the payment it has read, when it comes to the calls. */
  ghost predicate HasRead(k: Kwargs, s: State, orderId: string, lines: seq<ReturnLine>, entitlements: map<string,
                          string>,
                          ref: PaymentRef, key: string)
    requires orderId in s.orders && key in s.payments
  {
    var o, p := s.orders[orderId], s.payments[key];
    && k.orderId == orderId && k.order == o && k.lines == CollectLines(lines) && k.entitlements == entitlements
    && k.filtered == FilteredIds(ReturnItems(o.value.returnInfo), k.lines)
    && k.refundedItems == RefundedItems(ReturnItems(o.value.returnInfo), k.lines)
    && k.psp == Some(ref.psp) && k.paymentIntentId == Some(key) && k.paymentData == Some(p)
    && k.amount == AmountFor(o.value, p.value, k.filtered)
    && k.hasBeenRefunded == (FullyRefunded(p.value.transactions) || k.amount == 0)
    && k.chargeId == LastChargeInteraction(p.value.transactions)
  }

  /** A run that is started for an order with a payment gets as far as the step that calls Stripe. */
  lemma RunReachesCall(s: State, w: nat, orderId: string, lines: seq<ReturnLine>, entitlements: map<string, string>,
                       ref: PaymentRef, key: string, env: Env) returns (k: Kwargs)
    requires w !in s.pipelines && orderId in s.orders && key in s.payments && env.fault == NoFault
    requires SuccessfulPayment(s.orders[orderId].value.payments) == Some(ref) && ref.interfaceId == Some(key)
    ensures var e := StepPipeline(w, env);
            Run(s, [StartPipeline(w, orderId, lines, entitlements, true), e, e]) == Next(s, w, CallStripe(k))
            && HasRead(k, s, orderId, lines, entitlements, ref, key)
  {
    var e := StepPipeline(w, env);
    RunThree(s, StartPipeline(w, orderId, lines, entitlements, true), e, e);
    var s1 := Step(s, StartPipeline(w, orderId, lines, entitlements, true));
    var k0 := OrderFetched(s1, w, env, ref);
    k := PaymentFetched(Step(s1, e), w, k0, key, env);
    assert s1.pipelines[w := FetchPayment(k0)][w := CallStripe(k)] == s.pipelines[w := CallStripe(k)];
  }

  lemma OrderFetched(s: State, w: nat, env: Env, ref: PaymentRef) returns (k: Kwargs)
    requires w in s.pipelines && s.pipelines[w].FetchOrder? && s.pipelines[w].managed && env.fault == NoFault
    requires s.pipelines[w].orderId in s.orders
    requires SuccessfulPayment(s.orders[s.pipelines[w].orderId].value.payments) == Some(ref)
    ensures var p := s.pipelines[w];
            var o := s.orders[p.orderId];
            Step(s, StepPipeline(w, env)) == Next(s, w, FetchPayment(k))
            && k.psp == Some(ref.psp) && k.paymentIntentId == ref.interfaceId && k.order == o && k.orderId == p.orderId
            && k.lines == p.lines && k.entitlements == p.entitlements
            && k.filtered == FilteredIds(ReturnItems(o.value.returnInfo), p.lines)
            && k.refundedItems == RefundedItems(ReturnItems(o.value.returnInfo), p.lines)
  {
    k := Step(s, StepPipeline(w, env)).pipelines[w].kwargs;
  }

  lemma PaymentFetched(s: State, w: nat, k: Kwargs, key: string, env: Env) returns (k': Kwargs)
    requires w in s.pipelines && s.pipelines[w] == FetchPayment(k) && k.paymentIntentId == Some(key)
             && key in s.payments && env.fault == NoFault
    ensures Step(s, StepPipeline(w, env)) == Next(s, w, CallStripe(k'))
            && k' == k.(paymentData := Some(s.payments[key]),
                        amount := AmountFor(k.order.value, s.payments[key].value, k.filtered),
                        chargeId := LastChargeInteraction(s.payments[key].value.transactions),
                        hasBeenRefunded := FullyRefunded(s.payments[key].value.transactions) || k'.amount == 0,
                        refundsThen := s.psp)
  {
    k' := Step(s, StepPipeline(w, env)).pipelines[w].kwargs;
  }

  /** The hypothesis is needed, in every start state of this kind: a run reads a payment that holds a
      partial refund, the charge turns out to be refunded at the provider already, and the provider's
      answer is that same refund. The run records it a second time. */
  lemma ExistingAnswerDuplicates(s: State, w: nat, orderId: string, lines: seq<ReturnLine>, ref: PaymentRef,
                                 key: string, refund: PspRefund, newId: string)
    requires Init(s) && orderId in s.orders && key in s.payments
    requires SuccessfulPayment(s.orders[orderId].value.payments) == Some(ref) && ref.interfaceId == Some(key)
             && ref.psp == Stripe
    requires HasRefund(TransactionsOf(s, key), Some(refund.id)) && !FullyRefunded(TransactionsOf(s, key))
    requires var o := s.orders[orderId].value;
             AmountFor(o, s.payments[key].value, FilteredIds(ReturnItems(o.returnInfo), CollectLines(lines))) != 0
    ensures var e := StepPipeline(w, Env(NoFault, true, Existing(refund), newId, ""));
            var t := Run(Run(s, [StartPipeline(w, orderId, lines, map[], true), e, e]), [e, e, e]);
            key in t.payments && !UniqueRefunds(t.payments[key].value.transactions)
  {
    var env := Env(NoFault, true, Existing(refund), newId, "");
    var e := StepPipeline(w, env);
    var k := RunReachesCall(s, w, orderId, lines, map[], ref, key, env);
    var t := Run(s, [StartPipeline(w, orderId, lines, map[], true), e, e]);
    var i :| 0 <= i < |TransactionsOf(s, key)| && IsRefundOf(TransactionsOf(s, key)[i], Some(refund.id));
    assert RefundsKnown(TransactionsOf(s, key), s.psp);
    ExistingAnswerRecordedTwice(t, w, k, refund, env);
  }

  // ----- Redelivery -----

  function MessageOf(h: Hook): Option<HookMessage> {
    match h
    case HookRead(msg, _) => Some(msg)
    case HookWrite(msg, _, _, _) => Some(msg)
    case HookNotify(msg, _, _, _) => Some(msg)
    case HookFindOrder(msg, _, _, _) => Some(msg)
    case HookWriteOrder(msg, _, _, _, _, _, _) => Some(msg)
    case HookTag(msg, _, _, _, _, _) => Some(msg)
    case HookDone(msg, _) => Some(msg)
    case HookFailed => None
  }

  /** Once a payment holds a refund, no step of any task for that refund, delivered before or after,
      at whatever point of its work, changes the payment's transactions. */
  lemma RedeliveredStepChangesNothing(start: State, events: seq<Event>, w: nat, env: Env, key: string)
    requires Init(start)
    ensures var s := Run(start, events);
            w in s.hooks && MessageOf(s.hooks[w]).Some?
            && key in s.payments && HasRefund(TransactionsOf(s, key), Some(MessageOf(s.hooks[w]).value.refund.id))
            ==> TransactionsOf(Step(s, StepHook(w, env)), key) == TransactionsOf(s, key)
  {
    Reachable(start, events);
    if key in Run(start, events).payments {
      StepTransactions(Run(start, events), StepHook(w, env), key);
    }
  }

  lemma HasRefundLater(s: State, events: seq<Event>, key: string, id: Option<string>)
    requires Inv(s) && key in s.payments && HasRefund(TransactionsOf(s, key), id)
    ensures key in Run(s, events).payments && HasRefund(TransactionsOf(Run(s, events), key), id)
  {
    RecordingsAccountForRefunds(s, events, key);
    var before, after := TransactionsOf(s, key), TransactionsOf(Run(s, events), key);
    assert after == before + after[|before|..];
    HasRefundAfterAppend(before, after[|before|..], id);
  }

  /** Among the recordings from one on, a refund of a payment is recorded by pipeline runs only. */
  ghost predicate NotByHooks(recordings: seq<Recording>, from: nat, key: string, id: string) {
    forall i :: from <= i < |recordings| && recordings[i].key == key && recordings[i].refundId == id
      ==> recordings[i].byPipeline
  }

  lemma {:induction false} NoRecordingOfKnownRefund(s: State, events: seq<Event>, key: string, id: string, from: nat)
    requires Inv(s) && key in s.payments && HasRefund(TransactionsOf(s, key), Some(id))
             && NotByHooks(s.recordings, from, key, id)
    ensures NotByHooks(Run(s, events).recordings, from, key, id)
    decreases |events|
  {
    if events != [] {
      StepKeepsInv(s, events[0]);
      StepRecordings(s, events[0]);
      RecordingsAccountForRefunds(s, [events[0]], key);
      HasRefundLater(s, [events[0]], key, Some(id));
      assert Run(s, [events[0]]) == Step(s, events[0]);
      NoRecordingOfKnownRefund(Step(s, events[0]), events[1..], key, id, from);
    }
  }

  /** Over whole runs: after a payment holds a refund, no webhook task records it for that payment
      again, however often its event is delivered and whatever the tasks in flight have read. */
  lemma RedeliveryRecordsNothing(start: State, before: seq<Event>, after: seq<Event>, key: string, id: string)
    requires Init(start)
    ensures var s, t := Run(start, before), Run(Run(start, before), after);
            key in s.payments && HasRefund(TransactionsOf(s, key), Some(id))
            ==> NotByHooks(t.recordings, |s.recordings|, key, id)
  {
    var s := Run(start, before);
    Reachable(start, before);
    if key in s.payments && HasRefund(TransactionsOf(s, key), Some(id)) {
      NoRecordingOfKnownRefund(s, after, key, id, |s.recordings|);
    }
  }
}
