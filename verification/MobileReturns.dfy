/** Which return items a mobile refund task marks, and when these are the ones it is meant to mark. */
module MobileReturns {
  import opened Wrappers
  import opened Payments
  import opened RefundProtocol
  import opened RefundInvariants
  import opened RefundTheorems
  import opened RefundStatus

  // ----- The ids that are picked -----

  /** Refunded, and no transaction recorded yet. */
  predicate Unprocessed(item: ReturnItem) {
    item.state == Refunded && (item.transactionId == None || item.transactionId == Some(""))
  }

  /** The items of a return agree: all of them are unprocessed, or none. */
  predicate Uniform(items: seq<ReturnItem>) {
    forall i :: 0 <= i < |items| ==> (Unprocessed(items[i]) <==> Unprocessed(items[0]))
  }

  /** The return is one the task picks, going by its first item. */
  predicate Open(items: seq<ReturnItem>) {
    items != [] && Unprocessed(items[0])
  }

  /** The task goes on to the next older return. */
  predicate Skipped(items: seq<ReturnItem>) {
    items != [] && !Unprocessed(items[0])
  }

  predicate AtMostOneOpen(info: seq<seq<ReturnItem>>) {
    forall j, k :: 0 <= j < k < |info| ==> !(Open(info[j]) && Open(info[k]))
  }

  predicate DistinctIds(info: seq<seq<ReturnItem>>) {
    forall j, i, k, n ::
      0 <= j < |info| && 0 <= i < |info[j]| && 0 <= k < |info| && 0 <= n < |info[k]| && info[j][i].id == info[k][n].id
      ==> j == k && i == n
  }

  /** The ids name the unprocessed items and no others. */
  predicate NamesExactly(ids: seq<string>, info: seq<seq<ReturnItem>>) {
    forall k, i :: 0 <= k < |info| && 0 <= i < |info[k]| ==> (info[k][i].id in ids <==> Unprocessed(info[k][i]))
  }

  lemma {:induction false} IdsOfItems(items: seq<ReturnItem>, id: string)
    ensures id in ItemIds(items) <==> exists i :: 0 <= i < |items| && items[i].id == id
  {
    if items != [] {
      IdsOfItems(items[1..], id);
      if i :| 0 <= i < |items| && items[i].id == id {
        assert i > 0 ==> items[1..][i - 1] == items[i];
      }
    }
  }

  /** What is picked: the newest open return, as long as no newer one is empty; -1 stands for none. */
  predicate Picks(info: seq<seq<ReturnItem>>, ids: seq<string>, k: int) {
    && -1 <= k < |info|
    && (forall j :: k < j < |info| ==> Skipped(info[j]))
    && (if k < 0 then ids == [] else Open(info[k]) && ids == ItemIds(info[k]))
  }

  lemma {:induction false} PickedReturn(info: seq<seq<ReturnItem>>) returns (k: int)
    requires UnprocessedIds(info).Some?
    ensures Picks(info, UnprocessedIds(info).value, k)
  {
    if info == [] {
      k := -1;
    } else {
      var n := |info| - 1;
      if Open(info[n]) {
        k := n;
      } else {
        k := PickedReturn(info[..n]);
      }
    }
  }

  predicate RaisesAt(info: seq<seq<ReturnItem>>, k: int) {
    0 <= k < |info| && info[k] == [] && forall j :: k < j < |info| ==> Skipped(info[j])
  }

  lemma RaisesInFront(info: seq<seq<ReturnItem>>, k: int)
    requires info != [] && k < |info| - 1
    ensures RaisesAt(info, k) <==> RaisesAt(info[..|info| - 1], k) && Skipped(info[|info| - 1])
  {
    var front := info[..|info| - 1];
    assert forall j :: 0 <= j < |front| ==> front[j] == info[j];
    if RaisesAt(front, k) && Skipped(info[|info| - 1]) {
      forall j | k < j < |info| ensures Skipped(info[j]) {
        if j < |front| { assert Skipped(front[j]); }
      }
    }
  }

  /** The lookup raises exactly when it comes to an empty return before an open one. */
  lemma {:induction false} LookupRaisesExactlyWhen(info: seq<seq<ReturnItem>>)
    ensures UnprocessedIds(info) == None <==> exists k :: RaisesAt(info, k)
  {
    if info != [] {
      var n := |info| - 1;
      LookupRaisesExactlyWhen(info[..n]);
      if UnprocessedIds(info) == None {
        if info[n] == [] {
          assert RaisesAt(info, n);
        } else {
          var k :| RaisesAt(info[..n], k);
          RaisesInFront(info, k);
        }
      }
      if k :| RaisesAt(info, k) {
        if k < n { RaisesInFront(info, k); }
      }
    }
  }

  lemma PickedIds(info: seq<seq<ReturnItem>>, ids: seq<string>, k: int, j: nat, i: nat)
    requires DistinctIds(info) && Picks(info, ids, k) && j < |info| && i < |info[j]|
    ensures info[j][i].id in ids <==> j == k
  {
    if k >= 0 { IdsOfItems(info[k], info[j][i].id); }
  }

  /** The task looks at the first item of each return. What it picks are the unprocessed items exactly when the items
      of every return agree and at most one return is unprocessed. */
  lemma NamesExactlyWhen(info: seq<seq<ReturnItem>>)
    requires DistinctIds(info) && UnprocessedIds(info).Some?
    ensures NamesExactly(UnprocessedIds(info).value, info)
            <==> (forall k :: 0 <= k < |info| ==> Uniform(info[k])) && AtMostOneOpen(info)
  {
    var ids := UnprocessedIds(info).value;
    var k := PickedReturn(info);
    forall j, i | 0 <= j < |info| && 0 <= i < |info[j]| ensures info[j][i].id in ids <==> j == k {
      PickedIds(info, ids, k, j, i);
    }
    if NamesExactly(ids, info) {
      forall j | 0 <= j < |info| ensures Uniform(info[j]) && (Open(info[j]) ==> j == k) {
        forall i | 0 <= i < |info[j]| ensures Unprocessed(info[j][i]) <==> j == k {
          assert info[j][i].id in ids <==> j == k;
        }
      }
    }
    if (forall j :: 0 <= j < |info| ==> Uniform(info[j])) && AtMostOneOpen(info) {
      forall j, i | 0 <= j < |info| && 0 <= i < |info[j]| ensures Unprocessed(info[j][i]) <==> j == k {
        assert Uniform(info[j]);
        assert j > k ==> !Open(info[j]);
        assert 0 <= j < k ==> !Open(info[j]);
      }
    }
  }

  /** An unprocessed item behind a processed one is never picked, and a processed item behind an unprocessed one is
      picked with it. */
  lemma SecondItemMispicked(a: ReturnItem, b: ReturnItem)
    requires Unprocessed(a) && !Unprocessed(b)
    ensures UnprocessedIds([[b, a]]) == Some([]) && UnprocessedIds([[a, b]]) == Some([a.id, b.id])
  {
    assert [[b, a]][..0] == [];
    assert [a, b][1..] == [b] && [b][1..] == [];
    assert ItemIds([b]) == [b.id];
    assert ItemIds([a, b]) == [a.id, b.id];
  }

  // ----- The order that is marked -----

  /** A task about to mark return items has picked them in the order it found, if that is still the current one. */
  ghost predicate Tied(s: State, h: Hook) {
    h.HookWriteOrder? ==>
      h.orderId in s.orders && h.version <= s.orders[h.orderId].version
      && (h.version == s.orders[h.orderId].version
          ==> UnprocessedIds(s.orders[h.orderId].value.returnInfo) == Some(h.returnIds)
              && HasUnprocessed(s.orders[h.orderId].value, h.key))
  }

  lemma TiedLater(s: State, s': State, h: Hook)
    requires Evolves(s.orders, s'.orders) && Tied(s, h)
    ensures Tied(s', h)
  {
    if h.HookWriteOrder? {
      assert Coherent(s'.orders, h.orderId, s.orders[h.orderId]);
    }
  }

  lemma FindOrderTies(s: State, w: nat, h: Hook, env: Env)
    requires w in s.hooks && s.hooks[w] == h && h.HookFindOrder?
    ensures Tied(s, StepHookFindOrder(s, w, h.msg, h.retries, h.key, h.read, env).hooks[w])
  {
  }

  lemma OtherHookTies(s: State, w: nat, h: Hook, env: Env)
    requires w in s.hooks && s.hooks[w] == h && HookOk(s, h) && !h.HookFindOrder?
    ensures !StepHookAt(s, w, h, env).hooks[w].HookWriteOrder?
  {
    match h
    case HookRead(msg, retries) => HookReadEnds(s, w, msg, retries, env);
    case HookWrite(_, _, _, _) => HookWriteEnds(s, w, h, env);
    case HookWriteOrder(_, _, _, _, _, _, _) => HookOrderEnds(s, w, h, env);
    case HookTag(_, _, _, _, _, _) => HookTagEnds(s, w, h, env);
    case _ =>
  }

  lemma StepKeepsTied(s: State, e: Event, w: nat)
    requires Inv(s) && (w in s.hooks ==> Tied(s, s.hooks[w]))
    ensures w in Step(s, e).hooks ==> Tied(Step(s, e), Step(s, e).hooks[w])
  {
    var s' := Step(s, e);
    StepFrame(s, e);
    Effect(s, e);
    if w in s'.hooks {
      assert HookAt(s', w) == Some(s'.hooks[w]);
      if HookAt(s', w) == HookAt(s, w) {
        TiedLater(s, s', s.hooks[w]);
      } else if e.StepHook? {
        assert HookOk(s, s.hooks[w]);
        if s.hooks[w].HookFindOrder? {
          FindOrderTies(s, w, s.hooks[w], e.env);
          TiedLater(s, s', s'.hooks[w]);
        } else {
          OtherHookTies(s, w, s.hooks[w], e.env);
        }
      }
    }
  }

  lemma {:induction false} RunKeepsTied(s: State, events: seq<Event>, w: nat)
    requires Inv(s) && (w in s.hooks ==> Tied(s, s.hooks[w]))
    ensures w in Run(s, events).hooks ==> Tied(Run(s, events), Run(s, events).hooks[w])
    decreases |events|
  {
    if events != [] {
      StepKeepsInv(s, events[0]);
      StepKeepsTied(s, events[0], w);
      RunKeepsTied(Step(s, events[0]), events[1..], w);
    }
  }

  /** In every run, an order update that a mobile task commits replaces the very order the task found: it is paid
      with the task's payment and has an unprocessed item, and the items marked are those picked in it. They are
      its unprocessed items exactly when the items of every return agree and at most one return is open. */
  lemma MobileTaskMarksExactlyWhen(start: State, events: seq<Event>, w: nat, env: Env)
    requires Init(start)
    ensures var s := Run(start, events);
            w in s.hooks && s.hooks[w].HookWriteOrder? && Step(s, StepHook(w, env)).orders != s.orders
            ==> Marked(s.orders, s.hooks[w], Step(s, StepHook(w, env)).orders)
  {
    var s := Run(start, events);
    Reachable(start, events);
    RunKeepsTied(start, events, w);
    if w in s.hooks && s.hooks[w].HookWriteOrder? && Step(s, StepHook(w, env)).orders != s.orders {
      var h := s.hooks[w];
      CommittedMobileStatus(s, w, env);
      var info := s.orders[h.orderId].value.returnInfo;
      if DistinctIds(info) { NamesExactlyWhen(info); }
    }
  }

  ghost predicate Marked(orders: map<string, Versioned<Order>>, h: Hook, orders': map<string, Versioned<Order>>)
    requires h.HookWriteOrder?
  {
    MobileStatusCommitted(orders, h, orders')
    && var order := orders[h.orderId].value;
       HasUnprocessed(order, h.key) && UnprocessedIds(order.returnInfo) == Some(h.returnIds)
       && (DistinctIds(order.returnInfo)
           ==> (NamesExactly(h.returnIds, order.returnInfo)
                <==> (forall k :: 0 <= k < |order.returnInfo| ==> Uniform(order.returnInfo[k]))
                     && AtMostOneOpen(order.returnInfo)))
  }
}
