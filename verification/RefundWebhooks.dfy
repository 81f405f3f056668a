/** What the webhook tasks guarantee: when they are started over, and what one that ends has done. */
module RefundWebhooks {
  import opened Wrappers
  import opened Payments
  import opened RefundProtocol
  import opened RefundInvariants
  import opened RefundTheorems

  // ----- A first read that fails -----

  /** When the first read of a task fails, in any state, the task is started over exactly when it is a mobile task,
      the error is of a kind Celery retries, and retries are left. A Stripe or PayPal task raises
      while it logs the error, and ends. */
  lemma FailedReadIsRetriedExactlyWhen(s: State, w: nat, env: Env)
    requires w in s.hooks && s.hooks[w].HookRead? && env.fault != NoFault
    ensures var h := s.hooks[w];
            var s' := Step(s, StepHook(w, env));
            w in s'.hooks && s'.payments == s.payments
            && (s'.hooks[w] == HookRead(h.msg, h.retries + 1)
                <==> IsMobile(h.msg.kind) && env.handled && h.retries < MAX_RETRIES)
            && (s'.hooks[w] != HookRead(h.msg, h.retries + 1) ==> s'.hooks[w] == HookFailed)
  {
  }

  /** A task that has failed does nothing any more: no event moves it, and its own steps change no
      part of the state. */
  lemma {:induction false} FailedTaskStaysFailed(s: State, events: seq<Event>, w: nat, env: Env)
    requires w in s.hooks && s.hooks[w] == HookFailed
    ensures var t := Run(s, events);
            w in t.hooks && t.hooks[w] == HookFailed && Step(t, StepHook(w, env)) == t
    decreases |events|
  {
    if events != [] {
      StepFrame(s, events[0]);
      assert HookAt(Step(s, events[0]), w) == HookAt(s, w);
      FailedTaskStaysFailed(Step(s, events[0]), events[1..], w, env);
    }
  }

  /** Events of one task only. */
  predicate OnlyTask(events: seq<Event>, w: nat) {
    forall i :: 0 <= i < |events| ==> ActsOnHook(events[i], w)
  }

  /** So one failed read loses the event of a Stripe or PayPal refund, in every start state: whatever
      happens to the task afterwards, it stays failed, and by itself it never records the refund. */
  lemma FailedReadLosesRefund(start: State, w: nat, msg: HookMessage, env: Env, after: seq<Event>)
    requires Init(start) && msg.refund.id in start.psp && !IsMobile(msg.kind) && env.fault != NoFault
    ensures var s := Run(start, [StartHook(w, msg), StepHook(w, env)]);
            w in s.hooks && s.hooks[w] == HookFailed && s.payments == start.payments
            && w in Run(s, after).hooks && Run(s, after).hooks[w] == HookFailed
            && (OnlyTask(after, w) ==> Run(s, after) == s)
  {
    var s1 := Step(start, StartHook(w, msg));
    var s2 := Step(s1, StepHook(w, env));
    assert [StartHook(w, msg), StepHook(w, env)][1..] == [StepHook(w, env)];
    assert [StepHook(w, env)][1..] == [];
    assert Run(s1, [StepHook(w, env)]) == s2;
    FailedTaskStaysFailed(s2, after, w, env);
    if OnlyTask(after, w) {
      NothingHappens(s2, after, w);
    }
  }

  lemma {:induction false} NothingHappens(s: State, events: seq<Event>, w: nat)
    requires w in s.hooks && s.hooks[w] == HookFailed && OnlyTask(events, w)
    ensures Run(s, events) == s
    decreases |events|
  {
    if events != [] {
      assert ActsOnHook(events[0], w);
      forall i | 0 <= i < |events[1..]| ensures ActsOnHook(events[1..][i], w) {
        assert events[1..][i] == events[i + 1];
      }
      NothingHappens(s, events[1..], w);
    }
  }

  // ----- What a finished task guarantees -----

  /** The payment a task reads in one step, as it is at that moment. */
  function NewReads(s: State, e: Event, w: nat): set<Found> {
    if e.StepHook? && e.hook == w && w in s.hooks && s.hooks[w].HookRead? && e.env.fault == NoFault
       && Finds(s, s.hooks[w].msg, e.env.pick) then {Found(e.env.pick, s.payments[e.env.pick])}
    else {}
  }

  /** All the payments a task reads in a run, each as it is at the moment of its read. */
  function ReadsOf(s: State, events: seq<Event>, w: nat): set<Found>
    decreases |events|
  {
    if events == [] then {} else NewReads(s, events[0], w) + ReadsOf(Step(s, events[0]), events[1..], w)
  }

  /** The payment holds the refund, or it was fully refunded when the task read it. */
  ghost predicate Settled(s: State, f: Found, id: string, seen: set<Found>) {
    f.key in s.payments
    && (HasRefund(TransactionsOf(s, f.key), Some(id))
        || (f in seen && FullyRefunded(f.read.value.transactions)
            && f.read.value.transactions <= TransactionsOf(s, f.key)))
  }

  ghost predicate HookSettled(s: State, h: Hook, seen: set<Found>) {
    match h
    case HookNotify(msg, _, key, read) => Settled(s, Found(key, read), msg.refund.id, seen)
    case HookFindOrder(msg, _, key, read) => Settled(s, Found(key, read), msg.refund.id, seen)
    case HookWriteOrder(msg, _, key, read, _, _, _) => Settled(s, Found(key, read), msg.refund.id, seen)
    case HookTag(msg, _, key, read, _, _) => Settled(s, Found(key, read), msg.refund.id, seen)
    case HookDone(msg, found) => found.Some? ==> Settled(s, found.value, msg.refund.id, seen)
    case _ => true
  }

  lemma SettledLater(s: State, e: Event, f: Found, id: string, seen: set<Found>, seen': set<Found>)
    requires Inv(s) && Settled(s, f, id, seen) && seen <= seen'
    ensures Settled(Step(s, e), f, id, seen')
  {
    StepAccounted(s, e, f.key);
    var before, after := TransactionsOf(s, f.key), TransactionsOf(Step(s, e), f.key);
    if HasRefund(before, Some(id)) {
      assert after == before + after[|before|..];
      HasRefundAfterAppend(before, after[|before|..], Some(id));
    }
  }

  lemma HookSettledLater(s: State, e: Event, h: Hook, seen: set<Found>, seen': set<Found>)
    requires Inv(s) && HookSettled(s, h, seen) && seen <= seen'
    ensures HookSettled(Step(s, e), h, seen')
  {
    match h
    case HookNotify(msg, _, key, read) => SettledLater(s, e, Found(key, read), msg.refund.id, seen, seen');
    case HookFindOrder(msg, _, key, read) => SettledLater(s, e, Found(key, read), msg.refund.id, seen, seen');
    case HookWriteOrder(msg, _, key, read, _, _, _) =>
      SettledLater(s, e, Found(key, read), msg.refund.id, seen, seen');
    case HookTag(msg, _, key, read, _, _) => SettledLater(s, e, Found(key, read), msg.refund.id, seen, seen');
    case HookDone(msg, found) =>
      if found.Some? { SettledLater(s, e, found.value, msg.refund.id, seen, seen'); }
    case _ =>
  }

  lemma AfterReadSettles(s: State, msg: HookMessage, retries: nat, key: string)
    requires key in s.payments
    ensures HookSettled(s, AfterRead(msg, retries, key, s.payments[key]), {Found(key, s.payments[key])})
  {
  }

  lemma ReadSettles(s: State, w: nat, env: Env)
    requires w in s.hooks && s.hooks[w].HookRead?
    ensures var h := s.hooks[w];
            HookSettled(s, StepHookRead(s, w, h.msg, h.retries, env).hooks[w], NewReads(s, StepHook(w, env), w))
  {
    var h := s.hooks[w];
    if env.fault == NoFault && Finds(s, h.msg, env.pick) {
      AfterReadSettles(s, h.msg, h.retries, env.pick);
    }
  }

  lemma WriteAddsRefund(s: State, w: nat, h: Hook, env: Env)
    requires h.HookWrite? && HookOk(s, h)
    ensures var s' := StepHookWrite(s, w, h.msg, h.retries, h.key, h.read, env);
            s'.payments != s.payments
            ==> h.key in s'.payments && exists t :: IsRefundOf(t, Some(h.msg.refund.id))
                                                    && TransactionsOf(s', h.key) == TransactionsOf(s, h.key) + [t]
  {
    var s' := StepHookWrite(s, w, h.msg, h.retries, h.key, h.read, env);
    if s'.payments != s.payments {
      var t := HookTransaction(env.newId, h.msg, h.read.value);
      assert IsRefundOf(t, Some(h.msg.refund.id)) && TransactionsOf(s', h.key) == TransactionsOf(s, h.key) + [t];
    }
  }

  lemma WriteSettles(s: State, w: nat, h: Hook, env: Env, seen: set<Found>)
    requires h.HookWrite? && HookOk(s, h)
    ensures var s' := StepHookWrite(s, w, h.msg, h.retries, h.key, h.read, env); HookSettled(s', s'.hooks[w], seen)
  {
    var s' := StepHookWrite(s, w, h.msg, h.retries, h.key, h.read, env);
    HookWriteEnds(s, w, h, env);
    WriteAddsRefund(s, w, h, env);
    if s'.payments != s.payments {
      var ts := TransactionsOf(s', h.key);
      assert IsRefundOf(ts[|ts| - 1], Some(h.msg.refund.id));
    }
  }

  lemma FindOrderSettles(s: State, w: nat, h: Hook, env: Env, seen: set<Found>)
    requires w in s.hooks && s.hooks[w] == h && h.HookFindOrder? && HookSettled(s, h, seen)
    ensures HookSettled(s, StepHookFindOrder(s, w, h.msg, h.retries, h.key, h.read, env).hooks[w], seen)
  {
  }

  lemma LateHookSettles(s: State, w: nat, h: Hook, env: Env, seen: set<Found>)
    requires w in s.hooks && s.hooks[w] == h && HookSettled(s, h, seen)
    requires h.HookNotify? || h.HookDone? || h.HookFailed?
    ensures HookSettled(s, StepHookAt(s, w, h, env).hooks[w], seen)
  {
  }

  lemma TagSettles(s: State, w: nat, h: Hook, env: Env, seen: set<Found>)
    requires w in s.hooks && s.hooks[w] == h && h.HookTag? && HookSettled(s, h, seen)
    ensures HookSettled(s, StepHookTag(s, w, h, env).hooks[w], seen)
  {
    HookTagEnds(s, w, h, env);
  }

  lemma OwnStepSettles(s: State, w: nat, env: Env, seen: set<Found>)
    requires Inv(s) && w in s.hooks && HookSettled(s, s.hooks[w], seen)
    ensures var e := StepHook(w, env);
            var h' := HookAt(Step(s, e), w);
            h'.Some? ==> HookSettled(Step(s, e), h'.value, seen + NewReads(s, e, w))
  {
    var h, e := s.hooks[w], StepHook(w, env);
    var s' := Step(s, e);
    var seen' := seen + NewReads(s, e, w);
    assert HookOk(s, h);
    HookStepOk(s, w, env);
    if h.HookWrite? {
      WriteSettles(s, w, h, env, seen');
    } else if h.HookRead? {
      ReadSettles(s, w, env);
      HookSettledLater(s, e, s'.hooks[w], NewReads(s, e, w), seen');
    } else {
      if h.HookFindOrder? {
        FindOrderSettles(s, w, h, env, seen);
      } else if h.HookWriteOrder? {
        HookOrderEnds(s, w, h, env);
      } else if h.HookTag? {
        TagSettles(s, w, h, env, seen);
      } else {
        LateHookSettles(s, w, h, env, seen);
      }
      HookSettledLater(s, e, s'.hooks[w], seen, seen');
    }
  }

  lemma StepKeepsSettled(s: State, e: Event, w: nat, seen: set<Found>)
    requires Inv(s) && (w in s.hooks ==> HookSettled(s, s.hooks[w], seen))
    ensures w in Step(s, e).hooks ==> HookSettled(Step(s, e), Step(s, e).hooks[w], seen + NewReads(s, e, w))
  {
    var s' := Step(s, e);
    StepFrame(s, e);
    if w in s'.hooks {
      assert HookAt(s', w) == Some(s'.hooks[w]);
      if HookAt(s', w) == HookAt(s, w) {
        HookSettledLater(s, e, s.hooks[w], seen, seen + NewReads(s, e, w));
      } else if e.StepHook? {
        OwnStepSettles(s, w, e.env, seen);
      }
    }
  }

  lemma {:induction false} RunKeepsSettled(s: State, events: seq<Event>, w: nat, seen: set<Found>)
    requires Inv(s) && (w in s.hooks ==> HookSettled(s, s.hooks[w], seen))
    ensures var t := Run(s, events); w in t.hooks ==> HookSettled(t, t.hooks[w], seen + ReadsOf(s, events, w))
    decreases |events|
  {
    if events == [] {
      assert seen + ReadsOf(s, events, w) == seen;
    } else {
      var s', seen' := Step(s, events[0]), seen + NewReads(s, events[0], w);
      StepKeepsInv(s, events[0]);
      StepKeepsSettled(s, events[0], w, seen);
      RunKeepsSettled(s', events[1..], w, seen');
      assert seen' + ReadsOf(s', events[1..], w) == seen + ReadsOf(s, events, w);
    }
  }

  lemma {:induction false} SettledForever(s: State, events: seq<Event>, f: Found, id: string, seen: set<Found>)
    requires Inv(s) && Settled(s, f, id, seen)
    ensures Settled(Run(s, events), f, id, seen)
    decreases |events|
  {
    if events != [] {
      SettledLater(s, events[0], f, id, seen, seen);
      StepKeepsInv(s, events[0]);
      SettledForever(Step(s, events[0]), events[1..], f, id, seen);
    }
  }

  /** What the end of a task means, in every run. A task that ends normally either found no payment, or the
      payment it found holds its refund, then and ever after, or the payment was fully refunded at the moment
      the task read it, and all its transactions of that moment are still there. */
  lemma FinishedTaskIsSettled(start: State, before: seq<Event>, after: seq<Event>, w: nat)
    requires Init(start)
    ensures var s, t := Run(start, before), Run(Run(start, before), after);
            w in s.hooks && s.hooks[w].HookDone? && s.hooks[w].found.Some?
            ==> Settled(t, s.hooks[w].found.value, s.hooks[w].msg.refund.id, ReadsOf(start, before, w))
  {
    var s := Run(start, before);
    Reachable(start, before);
    RunKeepsSettled(start, before, w, {});
    if w in s.hooks && s.hooks[w].HookDone? && s.hooks[w].found.Some? {
      var seen := ReadsOf(start, before, w);
      assert {} + seen == seen;
      SettledForever(s, after, s.hooks[w].found.value, s.hooks[w].msg.refund.id, seen);
    }
  }

  lemma WriteNeverEndsTask(s: State, w: nat, h: Hook, env: Env)
    requires h.HookWrite?
    ensures !StepHookWrite(s, w, h.msg, h.retries, h.key, h.read, env).hooks[w].HookDone?
  {
  }

  lemma LateHookFound(s: State, w: nat, h: Hook, env: Env)
    requires w in s.hooks && s.hooks[w] == h && (h.HookNotify? || h.HookTag? || h.HookFailed?)
    ensures var h' := StepHookAt(s, w, h, env).hooks[w]; h'.HookDone? ==> h'.found.Some?
  {
  }

  lemma FindOrderFound(s: State, w: nat, h: Hook, env: Env)
    requires w in s.hooks && s.hooks[w] == h && h.HookFindOrder?
    ensures var h' := StepHookFindOrder(s, w, h.msg, h.retries, h.key, h.read, env).hooks[w];
            h'.HookDone? ==> h'.found.Some?
  {
  }

  /** And a task ends without a payment only when no payment answers its lookup at that moment. */
  lemma NothingFoundMeansNone(s: State, w: nat, env: Env)
    requires w in s.hooks && !s.hooks[w].HookDone?
    requires HookAt(Step(s, StepHook(w, env)), w).Some?
    requires var h' := HookAt(Step(s, StepHook(w, env)), w).value; h'.HookDone? && h'.found.None?
    ensures s.hooks[w].HookRead? && forall key :: key in s.payments ==> !Finds(s, s.hooks[w].msg, key)
  {
    var h := s.hooks[w];
    match h
    case HookRead(_, _) =>
    case HookWrite(_, _, _, _) => WriteNeverEndsTask(s, w, h, env);
    case HookFindOrder(_, _, _, _) => FindOrderFound(s, w, h, env);
    case HookWriteOrder(_, _, _, _, _, _, _) => HookOrderEnds(s, w, h, env);
    case _ => LateHookFound(s, w, h, env);
  }
}
