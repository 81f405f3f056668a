/** Line-item fulfilment states, the declared transitions, and updates of an order's line items. */
module LineItemStates {
  import opened Wrappers

  datatype StateKey = Initial | Pending | Processing | Success | Failure

  /** The transitions of the provisioned state definitions. */
  function Declared(from: StateKey): set<StateKey> {
    match from
    case Initial => {Pending}
    case Pending => {StateKey.Processing}
    case Processing => {StateKey.Success, StateKey.Failure}
    case Success => {}
    case Failure => {Pending, StateKey.Success}
  }

  /** So many units of a line item are in this state. */
  datatype Portion = Portion(key: StateKey, quantity: nat)

  datatype LineItem = LineItem(id: string, quantity: nat, state: seq<Portion>, entitlement: string)

  type Order = seq<LineItem>

  // ----- Update actions, as the order service applies them -----

  datatype Action =
    | SetEntitlement(itemId: string, value: string)
    | Transition(itemId: string, quantity: nat, from: StateKey, to: StateKey)

  function Take(state: seq<Portion>, key: StateKey, quantity: nat): Option<seq<Portion>> {
    if state == [] then None
    else if state[0].key == key then
      if state[0].quantity < quantity then None
      else if state[0].quantity == quantity then Some(state[1..])
      else Some([Portion(key, state[0].quantity - quantity)] + state[1..])
    else
      match Take(state[1..], key, quantity)
      case None => None
      case Some(rest) => Some([state[0]] + rest)
  }

  function Put(state: seq<Portion>, key: StateKey, quantity: nat): seq<Portion> {
    if state == [] then [Portion(key, quantity)]
    else if state[0].key == key then [Portion(key, state[0].quantity + quantity)] + state[1..]
    else [state[0]] + Put(state[1..], key, quantity)
  }

  /** Moves part of an item from one state to another; only declared transitions are accepted. */
  function Move(item: LineItem, quantity: nat, from: StateKey, to: StateKey): Option<LineItem> {
    if to !in Declared(from) then None
    else
      match Take(item.state, from, quantity)
      case None => None
      case Some(rest) => Some(item.(state := Put(rest, to, quantity)))
  }

  function ApplyToItem(item: LineItem, a: Action): Option<LineItem> {
    match a
    case SetEntitlement(_, value) => Some(item.(entitlement := value))
    case Transition(_, quantity, from, to) => Move(item, quantity, from, to)
  }

  /** The first item with the action's id is changed; an unknown id is an error. */
  function ApplyAction(order: Order, a: Action): Option<Order> {
    if order == [] then None
    else if order[0].id == a.itemId then
      match ApplyToItem(order[0], a)
      case None => None
      case Some(item) => Some([item] + order[1..])
    else
      match ApplyAction(order[1..], a)
      case None => None
      case Some(rest) => Some([order[0]] + rest)
  }

  /** All actions or none. */
  function ApplyActions(order: Order, actions: seq<Action>): Option<Order>
    decreases |actions|
  {
    if actions == [] then Some(order)
    else
      match ApplyAction(order, actions[0])
      case None => None
      case Some(next) => ApplyActions(next, actions[1..])
  }

  // ----- Quantities are conserved -----

  function Total(state: seq<Portion>): nat {
    if state == [] then 0 else state[0].quantity + Total(state[1..])
  }

  lemma {:induction false} TakeTotal(state: seq<Portion>, key: StateKey, quantity: nat)
    ensures Take(state, key, quantity).Some? ==> Total(Take(state, key, quantity).value) + quantity == Total(state)
  {
    if state != [] && state[0].key != key {
      TakeTotal(state[1..], key, quantity);
    }
  }

  lemma {:induction false} PutTotal(state: seq<Portion>, key: StateKey, quantity: nat)
    ensures Total(Put(state, key, quantity)) == Total(state) + quantity
  {
    if state != [] && state[0].key != key {
      PutTotal(state[1..], key, quantity);
    }
  }

  /** Whatever part of an item is moved, no unit is lost or invented. */
  lemma MoveConserves(item: LineItem, quantity: nat, from: StateKey, to: StateKey)
    ensures Move(item, quantity, from, to).Some?
            ==> Total(Move(item, quantity, from, to).value.state) == Total(item.state)
  {
    TakeTotal(item.state, from, quantity);
    if to in Declared(from) && Take(item.state, from, quantity).Some? {
      PutTotal(Take(item.state, from, quantity).value, to, quantity);
    }
  }

  /** The item is in one state with its full quantity. */
  predicate Whole(item: LineItem) {
    |item.state| == 1 && item.state[0].quantity == item.quantity
  }

  /** get_edx_line_item_state: the first portion's state. */
  function StateOf(item: LineItem): StateKey
    requires item.state != []
  {
    item.state[0].key
  }

  /** Moving the full quantity of a whole item leaves it whole, in the new state. */
  lemma MoveWhole(item: LineItem, from: StateKey, to: StateKey)
    requires Whole(item)
    ensures var r := Move(item, item.quantity, from, to);
            if StateOf(item) == from && to in Declared(from)
            then r == Some(item.(state := [Portion(to, item.quantity)])) && Whole(r.value)
            else r == None
  {
    assert item.state[1..] == [];
    assert Take([], from, item.quantity) == None;
    assert Put([], to, item.quantity) == [Portion(to, item.quantity)];
  }

  // ----- What the two clients send -----

  /** A completion message for one line item. */
  datatype Completion = Completion(itemId: string, isFulfilled: bool, entitlement: string)

  function Target(c: Completion): StateKey {
    if c.isFulfilled then Success else Failure
  }

  datatype Plan = Raises | Actions(actions: seq<Action>)

  /** get_edx_line_item */
  function Find(order: Order, itemId: string): Option<LineItem> {
    if order == [] then None
    else if order[0].id == itemId then Some(order[0])
    else Find(order[1..], itemId)
  }

  /** The actions of update_line_item_on_fulfillment for the order as read; an unknown item or an
      item without states raises before anything is sent. */
  function PlanCompletion(order: Order, c: Completion): Plan {
    match Find(order, c.itemId)
    case None => Raises
    case Some(item) =>
      if item.state == [] then Raises
      else
        var from := StateOf(item);
        Actions((if c.entitlement != "" then [SetEntitlement(c.itemId, c.entitlement)] else [])
                + (if from != Target(c) && from != Success then [Transition(c.itemId, item.quantity, from, Target(c))]
                    else []))
  }

  method BuildCompletionActions(order: Order, c: Completion) returns (plan: Plan)
    ensures plan == PlanCompletion(order, c)
  {
    var found := Find(order, c.itemId);
    if found.None? || found.value.state == [] {
      return Raises;
    }
    var actions := [];
    if c.entitlement != "" {
      actions := actions + [SetEntitlement(c.itemId, c.entitlement)];
    }
    var from := StateOf(found.value);
    if from != Target(c) && from != Success {
      actions := actions + [Transition(c.itemId, found.value.quantity, from, Target(c))];
    }
    return Actions(actions);
  }

  /** The actions of update_line_items_transition_state. */
  function PlanBatch(order: Order, from: StateKey, to: StateKey): seq<Action> {
    if order == [] then []
    else [Transition(order[0].id, order[0].quantity, from, to)] + PlanBatch(order[1..], from, to)
  }

  method BuildBatchActions(order: Order, from: StateKey, to: StateKey) returns (actions: seq<Action>)
    ensures actions == PlanBatch(order, from, to)
  {
    actions := [];
    for i := 0 to |order|
      invariant actions + PlanBatch(order[i..], from, to) == PlanBatch(order, from, to)
    {
      actions := actions + [Transition(order[i].id, order[i].quantity, from, to)];
      assert order[i..][1..] == order[i + 1..];
    }
  }

  // ----- Effects on an order -----

  /** An order as the service keeps it: distinct item ids, every item in one state. */
  ghost predicate WellFormed(order: Order) {
    (forall i :: 0 <= i < |order| ==> Whole(order[i]))
    && (forall i, j :: 0 <= i < j < |order| ==> order[i].id != order[j].id)
  }

  /** Effect of one completion on the order it was computed from. */
  function Complete(order: Order, c: Completion): Option<Order> {
    match PlanCompletion(order, c)
    case Raises => None
    case Actions(actions) => ApplyActions(order, actions)
  }

  /** The item's next state; a completion of an item that is not yet processing is rejected. */
  function NextState(from: StateKey, target: StateKey): Option<StateKey> {
    if from == target || from == Success then Some(from)
    else if target in Declared(from) then Some(target)
    else None
  }

  function NextItem(item: LineItem, c: Completion, next: StateKey): LineItem {
    item.(state := [Portion(next, item.quantity)], entitlement := if c.entitlement != "" then c.entitlement
        else item.entitlement)
  }

  lemma {:induction false} FindIndex(order: Order, k: nat)
    requires WellFormed(order) && k < |order|
    ensures Find(order, order[k].id) == Some(order[k])
  {
    if k > 0 {
      assert order[0].id != order[k].id;
      assert WellFormed(order[1..]);
      FindIndex(order[1..], k - 1);
    }
  }

  lemma {:induction false} FindNone(order: Order, id: string)
    ensures Find(order, id) == None <==> forall i :: 0 <= i < |order| ==> order[i].id != id
  {
    if order != [] {
      FindNone(order[1..], id);
      if Find(order[1..], id) != None && order[0].id != id {
        var i :| 0 <= i < |order[1..]| && order[1..][i].id == id;
        assert order[i + 1].id == id;
      }
    }
  }

  lemma {:induction false} ApplyActionAt(order: Order, k: nat, a: Action)
    requires k < |order| && order[k].id == a.itemId
    requires forall i :: 0 <= i < k ==> order[i].id != a.itemId
    ensures ApplyAction(order, a)
            == match ApplyToItem(order[k], a) { case None => None case Some(item) => Some(order[k := item]) }
  {
    if k > 0 {
      ApplyActionAt(order[1..], k - 1, a);
      var r := ApplyToItem(order[k], a);
      if r.Some? {
        assert [order[0]] + order[1..][k - 1 := r.value] == order[k := r.value];
      }
    } else if ApplyToItem(order[0], a).Some? {
      assert [ApplyToItem(order[0], a).value] + order[1..] == order[0 := ApplyToItem(order[0], a).value];
    }
  }

  /** A completion in full: it changes its item only, to `NextState`, or is rejected. */
  lemma CompleteEffect(order: Order, c: Completion, k: nat)
    requires WellFormed(order) && k < |order| && order[k].id == c.itemId
    ensures Complete(order, c)
            == match NextState(StateOf(order[k]), Target(c)) {
                 case None => None
                 case Some(next) => Some(order[k := NextItem(order[k], c, next)])
               }
  {
    FindIndex(order, k);
    var item, from := order[k], StateOf(order[k]);
    var moves := from != Target(c) && from != Success;
    var first := if c.entitlement != "" then [SetEntitlement(c.itemId, c.entitlement)] else [];
    var second := if moves then [Transition(c.itemId, item.quantity, from, Target(c))] else [];
    assert PlanCompletion(order, c) == Actions(first + second);
    var entitled := item.(entitlement := if c.entitlement != "" then c.entitlement else item.entitlement);
    var order' := order[k := entitled];
    assert ApplyActions(order, first + second) == ApplyActions(order', second) by {
      if c.entitlement != "" {
        ApplyActionAt(order, k, first[0]);
        assert (first + second)[1..] == second;
      } else {
        assert first + second == second && order' == order;
      }
    }
    assert item.state == [Portion(from, item.quantity)];
    if moves {
      MoveWhole(entitled, from, Target(c));
      ApplyActionAt(order', k, second[0]);
      assert second[1..] == [];
      assert ApplyActions(order', second) == ApplyAction(order', second[0]) by {
        if ApplyAction(order', second[0]).Some? {
          assert ApplyActions(ApplyAction(order', second[0]).value, []) == ApplyAction(order', second[0]);
        }
      }
      if Target(c) in Declared(from) {
        assert order'[k := NextItem(item, c, Target(c))] == order[k := NextItem(item, c, Target(c))];
      }
    } else {
      assert second == [];
      assert NextItem(item, c, from) == entitled;
    }
  }

  lemma CompleteUnknown(order: Order, c: Completion)
    requires forall i :: 0 <= i < |order| ==> order[i].id != c.itemId
    ensures Complete(order, c) == None
  {
    FindNone(order, c.itemId);
  }

  /** The transition a completion sends is a declared one exactly when the item has been processing
      before: items in Initial or Pending are the ones the service rejects. */
  lemma CompletionIsDeclaredExactlyWhen(from: StateKey, c: Completion)
    ensures NextState(from, Target(c)).Some? <==> from != Initial && from != Pending
    ensures NextState(from, Target(c)).Some? ==> NextState(from, Target(c)).value in {from} + Declared(from)
  {
  }

  // ----- Batch moves -----

  function Batch(order: Order, from: StateKey, to: StateKey): Option<Order> {
    ApplyActions(order, PlanBatch(order, from, to))
  }

  function AllIn(order: Order, key: StateKey): Order {
    if order == [] then [] else [order[0].(state := [Portion(key, order[0].quantity)])] + AllIn(order[1..], key)
  }

  lemma {:induction false} AllInItems(order: Order, key: StateKey)
    ensures |AllIn(order, key)| == |order|
    ensures forall i ::
            0 <= i < |order| ==> AllIn(order, key)[i] == order[i].(state := [Portion(key, order[i].quantity)])
  {
    if order != [] {
      AllInItems(order[1..], key);
    }
  }

  predicate CanBatch(order: Order, from: StateKey, to: StateKey) {
    to in Declared(from)
    && forall i :: 0 <= i < |order| ==> order[i].state != [] && StateOf(order[i]) == from
  }

  /** The first action of a batch moves the first item that is left, or is refused. */
  lemma BatchMovesNext(done: Order, rest: Order, from: StateKey, to: StateKey)
    requires WellFormed(done + rest) && rest != [] && Whole(rest[0])
    ensures var action := Transition(rest[0].id, rest[0].quantity, from, to);
            var moved := rest[0].(state := [Portion(to, rest[0].quantity)]);
            if StateOf(rest[0]) == from && to in Declared(from)
            then ApplyAction(done + rest, action) == Some((done + [moved]) + rest[1..])
                 && WellFormed((done + [moved]) + rest[1..])
            else ApplyAction(done + rest, action) == None
  {
    var order, k := done + rest, |done|;
    assert order[k] == rest[0];
    forall i | 0 <= i < k ensures order[i].id != rest[0].id {
      assert order[i].id != order[k].id;
    }
    ApplyActionAt(order, k, Transition(rest[0].id, rest[0].quantity, from, to));
    MoveWhole(rest[0], from, to);
    var moved := rest[0].(state := [Portion(to, rest[0].quantity)]);
    assert order[k := moved] == (done + [moved]) + rest[1..];
    WellFormedUpdate(order, k, moved);
  }

  lemma CanBatchRest(rest: Order, from: StateKey, to: StateKey)
    requires rest != [] && rest[0].state != []
    ensures CanBatch(rest, from, to)
            <==> StateOf(rest[0]) == from && to in Declared(from) && (rest[1..] == [] || CanBatch(rest[1..], from, to))
  {
    assert forall i :: 0 < i < |rest| ==> rest[i] == rest[1..][i - 1];
  }

  lemma AllInCons(done: Order, rest: Order, to: StateKey)
    requires rest != []
    ensures done + AllIn(rest, to)
            == (done + [rest[0].(state := [Portion(to, rest[0].quantity)])]) + AllIn(rest[1..], to)
  {
  }

  lemma {:induction false} BatchFromFront(done: Order, rest: Order, from: StateKey, to: StateKey)
    requires WellFormed(done + rest)
    ensures ApplyActions(done + rest, PlanBatch(rest, from, to))
            == if rest == [] || CanBatch(rest, from, to) then Some(done + AllIn(rest, to)) else None
    decreases |rest|
  {
    if rest != [] {
      var plan := PlanBatch(rest, from, to);
      assert (done + rest)[|done|] == rest[0];
      BatchMovesNext(done, rest, from, to);
      CanBatchRest(rest, from, to);
      assert plan[1..] == PlanBatch(rest[1..], from, to);
      if StateOf(rest[0]) == from && to in Declared(from) {
        var done' := done + [rest[0].(state := [Portion(to, rest[0].quantity)])];
        BatchFromFront(done', rest[1..], from, to);
        AllInCons(done, rest, to);
      }
    }
  }

  lemma WellFormedUpdate(order: Order, k: nat, item: LineItem)
    requires WellFormed(order) && k < |order|
    requires Whole(item) && item.id == order[k].id
    ensures WellFormed(order[k := item])
  {
  }

  /** A batch moves every item of the order to its target or, if one of them cannot move, none. */
  lemma BatchIsAllOrNothing(order: Order, from: StateKey, to: StateKey)
    requires WellFormed(order) && order != []
    ensures Batch(order, from, to) == if CanBatch(order, from, to) then Some(AllIn(order, to)) else None
  {
    assert [] + order == order;
    BatchFromFront([], order, from, to);
    assert [] + AllIn(order, to) == AllIn(order, to);
  }
}
