/** The actions a status update sends, and what applying them one after another amounts to. */
module ReturnActions {
  import opened Wrappers
  import opened RefundProtocol

  datatype Action =
    | SetReturnPaymentState(returnItemId: string, state: ReturnState)
    | SetReturnItemCustomType(returnItemId: string, transactionId: string, entitlementId: Option<string>)

  /** Setting the custom type replaces every custom field of the return item. */
  function ApplyToItem(item: ReturnItem, a: Action): ReturnItem {
    if a.returnItemId != item.id then item
    else
      match a
      case SetReturnPaymentState(_, state) => item.(state := state)
      case SetReturnItemCustomType(_, transactionId, entitlementId) => item.(transactionId := Some(transactionId),
          entitlementId := entitlementId)
  }

  function ApplyAll(item: ReturnItem, actions: seq<Action>): ReturnItem
    decreases |actions|
  {
    if actions == [] then item else ApplyToItem(ApplyAll(item, actions[..|actions| - 1]), actions[|actions| - 1])
  }

  function ApplyToItems(items: seq<ReturnItem>, actions: seq<Action>): (r: seq<ReturnItem>)
    ensures |r| == |items| && forall i :: 0 <= i < |r| ==> r[i] == ApplyAll(items[i], actions)
  {
    if items == [] then [] else [ApplyAll(items[0], actions)] + ApplyToItems(items[1..], actions)
  }

  function ApplyToInfo(info: seq<seq<ReturnItem>>, actions: seq<Action>): (r: seq<seq<ReturnItem>>)
    ensures |r| == |info|
  {
    if info == [] then [] else ApplyToInfo(info[..|info| - 1], actions) + [ApplyToItems(info[|info| - 1], actions)]
  }

  function Marked(item: ReturnItem, u: StatusUpdate): ReturnItem {
    if item.id in u.returnIds then MarkItem(item, u.state, TransactionFor(u, item.id), EntitlementFor(u, item.id))
    else item
  }

  /** Every action is about one of the return items named, and each of those gets one. */
  ghost predicate Names(actions: seq<Action>, returnIds: seq<string>) {
    forall id :: id in returnIds <==> exists i :: 0 <= i < |actions| && actions[i].returnItemId == id
  }

  lemma {:induction false} ApplyConcat(item: ReturnItem, a: seq<Action>, b: seq<Action>)
    ensures ApplyAll(item, a + b) == ApplyAll(ApplyAll(item, a), b)
    decreases |b|
  {
    if b == [] {
      assert a + b == a;
    } else {
      assert (a + b)[..|a + b| - 1] == a + b[..|b| - 1];
      ApplyConcat(item, a, b[..|b| - 1]);
    }
  }

  lemma ApplyOneMore(item: ReturnItem, actions: seq<Action>, a: Action)
    ensures ApplyAll(item, actions + [a]) == ApplyToItem(ApplyAll(item, actions), a)
  {
    assert (actions + [a])[..|actions|] == actions;
  }

  function WithState(item: ReturnItem, ids: seq<string>, state: Option<ReturnState>): ReturnItem {
    if item.id in ids && state.Some? then item.(state := state.value) else item
  }

  function WithFields(item: ReturnItem, ids: seq<string>, u: StatusUpdate): ReturnItem {
    if item.id in ids then item.(transactionId := Some(TransactionFor(u, item.id)),
                                 entitlementId := EntitlementFor(u, item.id)) else item
  }

  ghost predicate StateSetFor(item: ReturnItem, actions: seq<Action>, ids: seq<string>, state: Option<ReturnState>) {
    ApplyAll(item, actions) == WithState(item, ids, state)
  }

  ghost predicate FieldsSetFor(item: ReturnItem, actions: seq<Action>, ids: seq<string>, u: StatusUpdate) {
    ApplyAll(item, actions) == WithFields(item, ids, u)
  }

  /** The state actions, built so far, give the named items the state. */
  ghost predicate StatesSet(actions: seq<Action>, ids: seq<string>, state: Option<ReturnState>) {
    forall item: ReturnItem :: StateSetFor(item, actions, ids, state)
  }

  /** The custom type actions, built so far, give the named items their fields. */
  ghost predicate FieldsSet(actions: seq<Action>, ids: seq<string>, u: StatusUpdate) {
    forall item: ReturnItem :: FieldsSetFor(item, actions, ids, u)
  }

  lemma StateAddedFor(item: ReturnItem, actions: seq<Action>, ids: seq<string>, state: ReturnState, id: string)
    requires StateSetFor(item, actions, ids, Some(state))
    ensures StateSetFor(item, actions + [SetReturnPaymentState(id, state)], ids + [id], Some(state))
  {
    ApplyOneMore(item, actions, SetReturnPaymentState(id, state));
  }

  lemma FieldsAddedFor(item: ReturnItem, actions: seq<Action>, ids: seq<string>, u: StatusUpdate, id: string)
    requires FieldsSetFor(item, actions, ids, u)
    ensures FieldsSetFor(item, actions + [SetReturnItemCustomType(id, TransactionFor(u, id), EntitlementFor(u, id))],
                         ids + [id], u)
  {
    ApplyOneMore(item, actions, SetReturnItemCustomType(id, TransactionFor(u, id), EntitlementFor(u, id)));
  }

  lemma StateAdded(actions: seq<Action>, ids: seq<string>, state: ReturnState, id: string)
    requires StatesSet(actions, ids, Some(state))
    ensures StatesSet(actions + [SetReturnPaymentState(id, state)], ids + [id], Some(state))
  {
    forall item: ReturnItem
      ensures StateSetFor(item, actions + [SetReturnPaymentState(id, state)], ids + [id], Some(state)) {
      assert StateSetFor(item, actions, ids, Some(state));
      StateAddedFor(item, actions, ids, state, id);
    }
  }

  lemma FieldsAdded(actions: seq<Action>, ids: seq<string>, u: StatusUpdate, id: string)
    requires FieldsSet(actions, ids, u)
    ensures FieldsSet(actions + [SetReturnItemCustomType(id, TransactionFor(u, id), EntitlementFor(u, id))],
                      ids + [id], u)
  {
    var a := SetReturnItemCustomType(id, TransactionFor(u, id), EntitlementFor(u, id));
    forall item: ReturnItem ensures FieldsSetFor(item, actions + [a], ids + [id], u) {
      assert FieldsSetFor(item, actions, ids, u);
      FieldsAddedFor(item, actions, ids, u, id);
    }
  }

  lemma NamesAdded(actions: seq<Action>, ids: seq<string>, a: Action)
    requires Names(actions, ids)
    ensures Names(actions + [a], ids + [a.returnItemId])
  {
    var all := actions + [a];
    forall id ensures id in ids + [a.returnItemId] <==> exists i :: 0 <= i < |all| && all[i].returnItemId == id {
      if i :| 0 <= i < |actions| && actions[i].returnItemId == id {
        assert all[i].returnItemId == id;
      }
      if i :| 0 <= i < |all| && all[i].returnItemId == id && i < |actions| {
        assert actions[i].returnItemId == id;
      }
      assert all[|actions|] == a;
    }
  }

  /** The loop of update_return_payment_state_after_successful_refund: first all state actions, then
      all custom type actions. Applied one after another they do to each return item what the update
      asks for, even when a return id is named twice. */
  method BuildReturnActions(u: StatusUpdate) returns (actions: seq<Action>)
    ensures forall item: ReturnItem :: ApplyAll(item, actions) == Marked(item, u)
    ensures Names(actions, u.returnIds)
  {
    var states, fields := [], [];
    for n := 0 to |u.returnIds|
      invariant StatesSet(states, u.returnIds[..n], u.state)
      invariant u.state.None? ==> states == []
      invariant u.state.Some? ==> Names(states, u.returnIds[..n])
      invariant FieldsSet(fields, u.returnIds[..n], u) && Names(fields, u.returnIds[..n])
    {
      var id := u.returnIds[n];
      assert u.returnIds[..n + 1] == u.returnIds[..n] + [id];
      if u.state.Some? {
        StateAdded(states, u.returnIds[..n], u.state.value, id);
        NamesAdded(states, u.returnIds[..n], SetReturnPaymentState(id, u.state.value));
        states := states + [SetReturnPaymentState(id, u.state.value)];
      }
      var transactionId := if id in u.refundedItems then u.refundedItems[id] else u.transactionId;
      var entitlementId := if id in u.entitlements && u.entitlements[id] != "" then Some(u.entitlements[id]) else None;
      FieldsAdded(fields, u.returnIds[..n], u, id);
      NamesAdded(fields, u.returnIds[..n], SetReturnItemCustomType(id, transactionId, entitlementId));
      fields := fields + [SetReturnItemCustomType(id, transactionId, entitlementId)];
    }
    assert u.returnIds[..|u.returnIds|] == u.returnIds;
    actions := states + fields;
    BothSet(states, fields, u);
    NamesBoth(states, fields, u.returnIds);
  }

  lemma BothSet(states: seq<Action>, fields: seq<Action>, u: StatusUpdate)
    requires StatesSet(states, u.returnIds, u.state) && FieldsSet(fields, u.returnIds, u)
    ensures forall item: ReturnItem :: ApplyAll(item, states + fields) == Marked(item, u)
  {
    forall item: ReturnItem ensures ApplyAll(item, states + fields) == Marked(item, u) {
      ApplyConcat(item, states, fields);
      var item' := WithState(item, u.returnIds, u.state);
      assert StateSetFor(item, states, u.returnIds, u.state);
      assert FieldsSetFor(item', fields, u.returnIds, u);
    }
  }

  lemma NamesBoth(states: seq<Action>, fields: seq<Action>, ids: seq<string>)
    requires (states == [] || Names(states, ids)) && Names(fields, ids)
    ensures Names(states + fields, ids)
  {
    var all := states + fields;
    forall id ensures id in ids <==> exists i :: 0 <= i < |all| && all[i].returnItemId == id {
      if i :| 0 <= i < |fields| && fields[i].returnItemId == id {
        assert all[|states| + i].returnItemId == id;
      }
      if i :| 0 <= i < |all| && all[i].returnItemId == id {
        if i < |states| {
          assert states[i].returnItemId == id;
        } else {
          assert fields[i - |states|].returnItemId == id;
        }
      }
    }
  }

  lemma {:induction false} ApplyToItemsMarks(items: seq<ReturnItem>, actions: seq<Action>, u: StatusUpdate)
    requires forall item: ReturnItem :: ApplyAll(item, actions) == Marked(item, u)
    ensures ApplyToItems(items, actions) == MarkItems(items, u)
  {
    if items != [] {
      ApplyToItemsMarks(items[1..], actions, u);
      assert ApplyAll(items[0], actions) == Marked(items[0], u);
    }
  }

  /** Applying the actions to an order is what the protocol calls marking it. */
  lemma {:induction false} ApplyToInfoMarks(info: seq<seq<ReturnItem>>, actions: seq<Action>, u: StatusUpdate)
    requires forall item: ReturnItem :: ApplyAll(item, actions) == Marked(item, u)
    ensures ApplyToInfo(info, actions) == MarkInfo(info, u)
  {
    if info != [] {
      ApplyToInfoMarks(info[..|info| - 1], actions, u);
      ApplyToItemsMarks(info[|info| - 1], actions, u);
    }
  }
}
