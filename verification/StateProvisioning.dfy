/** Bringing the remote workflow states in line with their definitions, in three passes. */
module StateProvisioning {
  import opened Wrappers
  import LineItemStates

  type LocalizedString = map<string, string>

  datatype StateDraft = StateDraft(
    key: string,
    name: Option<LocalizedString>,
    description: Option<LocalizedString>,
    initial: Option<bool>,
    transitions: Option<seq<string>>)

  /** A state as the remote service keeps it; transitions are ids there, keys in the drafts. */
  datatype RemoteState = RemoteState(
    id: string,
    version: nat,
    name: Option<LocalizedString>,
    description: Option<LocalizedString>,
    initial: bool,
    transitions: Option<seq<string>>)

  datatype Action =
    | SetTransitions(transitions: Option<seq<string>>)
    | ChangeInitial(initial: bool)
    | SetDescription(description: Option<LocalizedString>)
    | SetName(name: Option<LocalizedString>)

  function ApplyAction(s: RemoteState, a: Action): RemoteState {
    match a
    case SetTransitions(t) => s.(transitions := t)
    case ChangeInitial(i) => s.(initial := i)
    case SetDescription(d) => s.(description := d)
    case SetName(n) => s.(name := n)
  }

  function ApplyActions(s: RemoteState, actions: seq<Action>): RemoteState
    decreases |actions|
  {
    if actions == [] then s else ApplyActions(ApplyAction(s, actions[0]), actions[1..])
  }

  /** ls_eq: a missing text is never equal to anything, not even to a missing text. */
  predicate LsEq(a: Option<LocalizedString>, b: Option<LocalizedString>) {
    a.Some? && b.Some? && a.value == b.value
  }

  /** The ids a draft's transitions translate to; None inside when a key is unknown. */
  function Translate(keys: seq<string>, translations: map<string, string>): Option<seq<string>> {
    if keys == [] then Some([])
    else if keys[0] !in translations then None
    else
      match Translate(keys[1..], translations)
      case None => None
      case Some(rest) => Some([translations[keys[0]]] + rest)
  }

  function TranslateTransitions(d: StateDraft, translations: map<string, string>): Option<Option<seq<string>>> {
    match d.transitions
    case None => Some(None)
    case Some(keys) =>
      match Translate(keys, translations)
      case None => None
      case Some(ids) => Some(Some(ids))
  }

  function PlanUpdate(d: StateDraft, s: RemoteState, transitions: Option<seq<string>>): seq<Action> {
    (if transitions != s.transitions then [SetTransitions(transitions)] else [])
    + (if d.initial.Some? && s.initial != d.initial.value then [ChangeInitial(d.initial.value)] else [])
    + (if !LsEq(s.description, d.description) then [SetDescription(d.description)] else [])
    + (if !LsEq(s.name, d.name) then [SetName(d.name)] else [])
  }

  /** The state is what the draft says. */
  predicate Reconciled(d: StateDraft, s: RemoteState, transitions: Option<seq<string>>) {
    s.name == d.name && s.description == d.description && s.transitions == transitions
    && (d.initial.Some? ==> s.initial == d.initial.value)
  }

  /** One update is enough, whatever the state was before. */
  lemma UpdateReconciles(d: StateDraft, s: RemoteState, transitions: Option<seq<string>>)
    ensures var s' := ApplyActions(s, PlanUpdate(d, s, transitions));
            Reconciled(d, s', transitions) && s'.id == s.id && s'.version == s.version
    ensures PlanUpdate(d, s, transitions) == [] ==> Reconciled(d, s, transitions)
  {
    var a := if transitions != s.transitions then [SetTransitions(transitions)] else [];
    var b := if d.initial.Some? && s.initial != d.initial.value then [ChangeInitial(d.initial.value)] else [];
    var c := if !LsEq(s.description, d.description) then [SetDescription(d.description)] else [];
    var e := if !LsEq(s.name, d.name) then [SetName(d.name)] else [];
    var s1, s2 := ApplyActions(s, a), ApplyActions(ApplyActions(s, a), b);
    var s3 := ApplyActions(s2, c);
    ApplyAppends(s, a + b + c, e);
    ApplyAppends(s, a + b, c);
    ApplyAppends(s, a, b);
    assert a != [] ==> a[1..] == [];
    assert b != [] ==> b[1..] == [];
    assert c != [] ==> c[1..] == [];
    assert e != [] ==> e[1..] == [];
  }

  lemma {:induction false} ApplyAppends(s: RemoteState, a: seq<Action>, b: seq<Action>)
    ensures ApplyActions(s, a + b) == ApplyActions(ApplyActions(s, a), b)
    decreases |a|
  {
    if a == [] {
      assert a + b == b;
    } else {
      assert (a + b)[1..] == a[1..] + b;
      ApplyAppends(ApplyAction(s, a[0]), a[1..], b);
    }
  }

  /** Nothing to do exactly when the state is reconciled and the draft has both texts: a draft
      without a name or description is updated again on every run. */
  lemma NothingToDoExactlyWhen(d: StateDraft, s: RemoteState, transitions: Option<seq<string>>)
    ensures PlanUpdate(d, s, transitions) == []
            <==> Reconciled(d, s, transitions) && d.name.Some? && d.description.Some?
  {
    UpdateReconciles(d, s, transitions);
  }

  /** Such a draft: after any update its state is what the draft says, and the next run updates it again. */
  lemma DraftWithoutTextIsUpdatedAgain(s: RemoteState, key: string, name: LocalizedString)
    ensures var d := StateDraft(key, Some(name), None, None, None);
            var s' := ApplyActions(s, PlanUpdate(d, s, None));
            Reconciled(d, s', None) && PlanUpdate(d, s', None) == [SetDescription(None)]
  {
    UpdateReconciles(StateDraft(key, Some(name), None, None, None), s, None);
  }

  // ----- The command -----

  predicate DistinctKeys(drafts: seq<StateDraft>) {
    forall i, j :: 0 <= i < j < |drafts| ==> drafts[i].key != drafts[j].key
  }

  /** Generated ids are never keys of the definitions. */
  predicate IdsAreNotKeys(states: map<string, RemoteState>, drafts: seq<StateDraft>) {
    forall k, i :: k in states && 0 <= i < |drafts| ==> states[k].id != drafts[i].key
  }

  /** The states after the first pass: missing ones are created, in any shape the service likes. */
  function WithCreated(states: map<string, RemoteState>, drafts: seq<StateDraft>,
                       created: StateDraft -> RemoteState): map<string, RemoteState> {
    if drafts == [] then states
    else
      var before := WithCreated(states, drafts[..|drafts| - 1], created);
      var d := drafts[|drafts| - 1];
      if d.key in before then before else before[d.key := created(d)]
  }

  function IdOf(states: map<string, RemoteState>, key: string): string {
    if key in states then states[key].id else ""
  }

  /** Every transition of a draft leads to a draft. */
  predicate ClosedTransitions(drafts: seq<StateDraft>) {
    forall i :: 0 <= i < |drafts| && drafts[i].transitions.Some? ==>
      forall j :: 0 <= j < |drafts[i].transitions.value| ==>
        exists m :: 0 <= m < |drafts| && drafts[m].key == drafts[i].transitions.value[j]
  }

  function TransitionIds(keys: seq<string>, states: map<string, RemoteState>): (r: seq<string>)
    ensures |r| == |keys|
  {
    if keys == [] then [] else [IdOf(states, keys[0])] + TransitionIds(keys[1..], states)
  }

  /** What a draft's transitions mean for the remote states. */
  function WantedTransitions(d: StateDraft, states: map<string, RemoteState>): Option<seq<string>> {
    match d.transitions
    case None => None
    case Some(keys) => Some(TransitionIds(keys, states))
  }

  ghost predicate Provisioned(drafts: seq<StateDraft>, states: map<string, RemoteState>) {
    forall i :: 0 <= i < |drafts| ==>
      drafts[i].key in states && Reconciled(drafts[i], states[drafts[i].key], WantedTransitions(drafts[i], states))
  }

  lemma {:induction false} TranslateFinds(keys: seq<string>, translations: map<string, string>, states: map<string,
                                          RemoteState>)
    requires forall j :: 0 <= j < |keys| ==> keys[j] in translations && translations[keys[j]] == IdOf(states, keys[j])
    ensures Translate(keys, translations) == Some(TransitionIds(keys, states))
  {
    if keys != [] { TranslateFinds(keys[1..], translations, states); }
  }

  lemma {:induction false} SameIdsSameTransitions(keys: seq<string>, states: map<string, RemoteState>,
                                                  states': map<string, RemoteState>)
    requires SameIds(states, states')
    ensures TransitionIds(keys, states) == TransitionIds(keys, states')
  {
    if keys != [] { SameIdsSameTransitions(keys[1..], states, states'); }
  }

  lemma {:induction false} CreatedKeys(states: map<string, RemoteState>, drafts: seq<StateDraft>,
                                       created: StateDraft -> RemoteState)
    ensures forall i :: 0 <= i < |drafts| ==> drafts[i].key in WithCreated(states, drafts, created)
    ensures forall k :: k in states ==> k in WithCreated(states, drafts, created)
    ensures forall k :: k in states ==> WithCreated(states, drafts, created)[k] == states[k]
  {
    if drafts != [] {
      CreatedKeys(states, drafts[..|drafts| - 1], created);
    }
  }

  class StateRegistry {
    var states: map<string, RemoteState>

    constructor (start: map<string, RemoteState>)
      ensures states == start
    {
      states := start;
    }

    /** `states.update_by_id`: refused unless the version is current. */
    method UpdateByKey(key: string, version: nat, actions: seq<Action>) returns (accepted: bool)
      requires key in states
      modifies this
      ensures accepted <==> old(states)[key].version == version
      ensures states == if accepted then old(states)[key := ApplyActions(old(states)[key],
              actions).(version := version + 1)]
                        else old(states)
    {
      accepted := states[key].version == version;
      if accepted {
        states := states[key := ApplyActions(states[key], actions).(version := version + 1)];
      }
    }

    /** First pass: create what is missing. */
    method CreateMissing(drafts: seq<StateDraft>, created: StateDraft -> RemoteState)
      modifies this
      ensures states == WithCreated(old(states), drafts, created)
    {
      for i := 0 to |drafts|
        invariant states == WithCreated(old(states), drafts[..i], created)
      {
        assert drafts[..i + 1][..i] == drafts[..i];
        if drafts[i].key !in states {
          states := states[drafts[i].key := created(drafts[i])];
        }
      }
      assert drafts[..|drafts|] == drafts;
    }

    /** Second pass: collect ids and current versions. */
    method CollectStates(drafts: seq<StateDraft>) returns (translations: map<string, string>, pairs: seq<RemoteState>)
      requires forall i :: 0 <= i < |drafts| ==> drafts[i].key in states
      requires IdsAreNotKeys(states, drafts)
      ensures Translates(drafts, translations, states)
      ensures |pairs| == |drafts| && forall i :: 0 <= i < |drafts| ==> pairs[i] == states[drafts[i].key]
    {
      translations, pairs := map[], [];
      for i := 0 to |drafts|
        invariant |pairs| == i
        invariant Translates(drafts[..i], translations, states)
        invariant forall j :: 0 <= j < i ==> pairs[j] == states[drafts[j].key]
      {
        var state := states[drafts[i].key];
        translations := translations[drafts[i].key := state.id];
        translations := translations[state.id := drafts[i].key];
        pairs := pairs + [state];
      }
      assert drafts[..|drafts|] == drafts;
    }

    /** The body of the third pass for one draft. */
    method UpdateDiffering(d: StateDraft, state: RemoteState, translations: map<string, string>)
      returns (accepted: bool, updated: bool)
      requires d.key in states && states[d.key] == state
      requires TranslateTransitions(d, translations).Some?
      modifies this
      ensures accepted && (updated <==> PlanUpdate(d, state, TranslateTransitions(d, translations).value) != [])
      ensures states.Keys == old(states).Keys && Untouched(old(states), states, d.key)
      ensures Reconciled(d, states[d.key], TranslateTransitions(d, translations).value) && states[d.key].id == state.id
    {
      var wanted := TranslateTransitions(d, translations).value;
      var actions := PlanUpdate(d, state, wanted);
      UpdateReconciles(d, state, wanted);
      accepted, updated := true, actions != [];
      if updated {
        accepted := UpdateByKey(d.key, state.version, actions);
      }
    }

    /** Third pass: update what differs. */
    method UpdateAll(drafts: seq<StateDraft>, pairs: seq<RemoteState>, translations: map<string, string>)
      returns (accepted: bool, updated: seq<bool>)
      requires DistinctKeys(drafts) && ClosedTransitions(drafts)
      requires |pairs| == |drafts|
      requires forall i :: 0 <= i < |drafts| ==> drafts[i].key in states && pairs[i] == states[drafts[i].key]
      requires Translates(drafts, translations, states)
      modifies this
      ensures accepted && UpdatedSoFar(drafts, old(states), states, updated, |drafts|)
    {
      accepted, updated := true, [];
      for i := 0 to |drafts|
        invariant accepted && UpdatedSoFar(drafts, old(states), states, updated, i)
      {
        ghost var before := states;
        TranslateDraft(drafts, i, translations, old(states));
        var ok, changed := UpdateDiffering(drafts[i], pairs[i], translations);
        OneMoreUpdated(drafts, old(states), before, states, updated, i, changed);
        accepted := accepted && ok;
        updated := updated + [changed];
      }
    }

    /** One complete run; `updated` says for each draft whether its state needed an update. No update
        is refused and no transition key is unknown, other states are left alone, and afterwards
        every state is what its draft says. */
    method Handle(drafts: seq<StateDraft>, created: StateDraft -> RemoteState)
      returns (accepted: bool, updated: seq<bool>)
      requires DistinctKeys(drafts) && ClosedTransitions(drafts)
      requires IdsAreNotKeys(WithCreated(states, drafts, created), drafts)
      modifies this
      ensures accepted && Provisioned(drafts, states)
      ensures OthersUntouched(drafts, WithCreated(old(states), drafts, created), states)
      ensures |updated| == |drafts|
      ensures forall i :: 0 <= i < |drafts| ==>
                (updated[i] <==> NeedsUpdate(drafts[i], WithCreated(old(states), drafts, created)))
    {
      CreateMissing(drafts, created);
      ghost var before := states;
      CreatedKeys(old(states), drafts, created);
      var translations, pairs := CollectStates(drafts);
      accepted, updated := UpdateAll(drafts, pairs, translations);
      forall i | 0 <= i < |drafts|
        ensures Reconciled(drafts[i], states[drafts[i].key], WantedTransitions(drafts[i], states)) {
        SameIdsSameWanted(drafts[i], before, states);
      }
    }
  }

  /** The third pass has dealt with the first n drafts. */
  ghost predicate UpdatedSoFar(drafts: seq<StateDraft>, before: map<string, RemoteState>, now: map<string,
                               RemoteState>, updated: seq<bool>, n: nat)
    requires n <= |drafts| && forall i :: 0 <= i < |drafts| ==> drafts[i].key in before
  {
    && |updated| == n && SameIds(before, now) && OthersUntouched(drafts, before, now)
    && (forall j :: 0 <= j < n ==> Reconciled(drafts[j], now[drafts[j].key], WantedTransitions(drafts[j], before)))
    && (forall j :: n <= j < |drafts| ==> now[drafts[j].key] == before[drafts[j].key])
    && (forall j :: 0 <= j < n ==> (updated[j] <==> NeedsUpdate(drafts[j], before)))
  }

  lemma OneMoreUpdated(drafts: seq<StateDraft>, start: map<string, RemoteState>, before: map<string, RemoteState>,
                       now: map<string, RemoteState>,
                       updated: seq<bool>, n: nat, changed: bool)
    requires DistinctKeys(drafts) && n < |drafts| && forall i :: 0 <= i < |drafts| ==> drafts[i].key in start
    requires UpdatedSoFar(drafts, start, before, updated, n)
    requires before.Keys == now.Keys && Untouched(before, now, drafts[n].key)
    requires now[drafts[n].key].id == before[drafts[n].key].id
    requires Reconciled(drafts[n], now[drafts[n].key], WantedTransitions(drafts[n], start))
    requires changed <==> NeedsUpdate(drafts[n], start)
    ensures UpdatedSoFar(drafts, start, now, updated + [changed], n + 1)
  {
    forall j | 0 <= j < |drafts| && j != n ensures now[drafts[j].key] == before[drafts[j].key] {
      assert drafts[j].key != drafts[n].key;
    }
  }

  predicate Translates(drafts: seq<StateDraft>, translations: map<string, string>, states: map<string, RemoteState>) {
    forall i :: 0 <= i < |drafts| ==>
      drafts[i].key in translations && translations[drafts[i].key] == IdOf(states, drafts[i].key)
  }

  predicate Untouched(before: map<string, RemoteState>, after: map<string, RemoteState>, key: string) {
    forall k :: k in before && k != key ==> k in after && after[k] == before[k]
  }

  ghost predicate OthersUntouched(drafts: seq<StateDraft>, before: map<string, RemoteState>, after: map<string,
                                  RemoteState>) {
    before.Keys == after.Keys
    && forall k :: k in before && (forall i :: 0 <= i < |drafts| ==> drafts[i].key != k) ==> after[k] == before[k]
  }

  predicate SameIds(before: map<string, RemoteState>, after: map<string, RemoteState>) {
    before.Keys == after.Keys && forall k :: k in before ==> after[k].id == before[k].id
  }

  /** There is something to do for this draft. */
  predicate NeedsUpdate(d: StateDraft, states: map<string, RemoteState>) {
    d.key in states && PlanUpdate(d, states[d.key], WantedTransitions(d, states)) != []
  }

  lemma SameIdsSameWanted(d: StateDraft, before: map<string, RemoteState>, after: map<string, RemoteState>)
    requires SameIds(before, after)
    ensures WantedTransitions(d, before) == WantedTransitions(d, after)
  {
    if d.transitions.Some? {
      SameIdsSameTransitions(d.transitions.value, before, after);
    }
  }

  lemma TranslateDraft(drafts: seq<StateDraft>, i: nat, translations: map<string, string>, states: map<string,
                       RemoteState>)
    requires ClosedTransitions(drafts) && i < |drafts|
    requires Translates(drafts, translations, states)
    ensures TranslateTransitions(drafts[i], translations) == Some(WantedTransitions(drafts[i], states))
  {
    if drafts[i].transitions.Some? {
      var keys := drafts[i].transitions.value;
      forall j | 0 <= j < |keys| ensures keys[j] in translations && translations[keys[j]] == IdOf(states, keys[j]) {
        var m :| 0 <= m < |drafts| && drafts[m].key == keys[j];
      }
      TranslateFinds(keys, translations, states);
    }
  }

  predicate HaveTexts(drafts: seq<StateDraft>) {
    forall i :: 0 <= i < |drafts| ==> drafts[i].name.Some? && drafts[i].description.Some?
  }

  lemma {:induction false} NothingCreated(states: map<string, RemoteState>, drafts: seq<StateDraft>,
                                          created: StateDraft -> RemoteState)
    requires forall i :: 0 <= i < |drafts| ==> drafts[i].key in states
    ensures WithCreated(states, drafts, created) == states
  {
    if drafts != [] {
      assert drafts[|drafts| - 1].key in states;
      NothingCreated(states, drafts[..|drafts| - 1], created);
    }
  }

  /** Convergence: a second run updates nothing, exactly when every draft has both texts. */
  lemma SecondRunIsQuietExactlyWhen(drafts: seq<StateDraft>, states: map<string, RemoteState>,
                                    created: StateDraft -> RemoteState)
    requires Provisioned(drafts, states)
    ensures WithCreated(states, drafts, created) == states
    ensures (forall i :: 0 <= i < |drafts| ==> !NeedsUpdate(drafts[i], states)) <==> HaveTexts(drafts)
  {
    NothingCreated(states, drafts, created);
    forall i | 0 <= i < |drafts|
      ensures !NeedsUpdate(drafts[i], states) <==> drafts[i].name.Some? && drafts[i].description.Some? {
      NothingToDoExactlyWhen(drafts[i], states[drafts[i].key], WantedTransitions(drafts[i], states));
    }
  }

  // ----- The definitions that are provisioned -----

  /** `ls`: a text in one other language stands for English too, and English for US English. */
  ghost function Localized(texts: LocalizedString): LocalizedString {
    var withEnglish := if |texts| == 1 && "en" !in texts then var l :| l in texts; texts["en" := texts[l]] else texts;
    if "en" in withEnglish && "en-US" !in withEnglish then withEnglish["en-US" := withEnglish["en"]] else withEnglish
  }

  function Text(en: string): Option<LocalizedString> {
    Some(map["en" := en, "en-US" := en])
  }

  lemma TextIsLocalized(en: string)
    ensures Text(en) == Some(Localized(map["en" := en]))
  {
  }

  const SANCTIONED := "2u-sdn-order-state"
  const INITIAL := "Initial"
  const PENDING := "2u-fulfillment-pending-state"
  const PROCESSING := "2u-fulfillment-processing-state"
  const SUCCESS := "2u-fulfillment-success-state"
  const FAILURE := "2u-fulfillment-failure-state"

  function OrderStates(): seq<StateDraft> {
    [ StateDraft(SANCTIONED, Text("Sanctioned"), Text("This order has been sanctioned for an SDN hit"), None, None),
      StateDraft(INITIAL, Text("Fulfillment Initial"), Text("This order line item has not yet been fulfilled"),
                 Some(true), Some([PENDING])),
      StateDraft(PENDING, Text("Fulfillment Pending"), Text("This order line item is pending fulfilment"),
                 Some(false), Some([PROCESSING])),
      StateDraft(PROCESSING, Text("Fulfillment Processing"), Text("This order line item is processing fulfilment"),
                 Some(false), Some([SUCCESS, FAILURE])),
      StateDraft(SUCCESS, Text("Fulfillment Success"), Text("This order line item has successfully been fulfilled"),
                 Some(false), Some([])),
      StateDraft(FAILURE, Text("Fulfillment Failure"), Text("This order line item was unsuccessfully fulfilled"),
                 Some(false), Some([PENDING, SUCCESS])) ]
  }

  function KeyOf(k: LineItemStates.StateKey): string {
    match k
    case Initial => INITIAL
    case Pending => PENDING
    case Processing => PROCESSING
    case Success => SUCCESS
    case Failure => FAILURE
  }

  lemma KeysDiffer()
    ensures forall a, b :: a != b ==> KeyOf(a) != KeyOf(b)
    ensures forall a :: KeyOf(a) != SANCTIONED
  {
    assert |SANCTIONED| == 18 && |INITIAL| == 7 && |PENDING| == 28 && |PROCESSING| == 31 && |SUCCESS| == 28
           && |FAILURE| == 28;
    assert PENDING[15] == 'p' && SUCCESS[15] == 's' && FAILURE[15] == 'f';
  }

  function DraftOf(k: LineItemStates.StateKey): (i: nat)
    ensures 1 <= i < |OrderStates()| && OrderStates()[i].key == KeyOf(k)
  {
    match k
    case Initial => 1
    case Pending => 2
    case Processing => 3
    case Success => 4
    case Failure => 5
  }

  /** The shipped definitions satisfy the hypotheses of a run and of convergence. */
  lemma OrderStatesAreFit()
    ensures DistinctKeys(OrderStates()) && ClosedTransitions(OrderStates()) && HaveTexts(OrderStates())
  {
    OrderStateKeys();
    forall i, j | 0 <= i < |OrderStates()| && OrderStates()[i].transitions.Some?
      && 0 <= j < |OrderStates()[i].transitions.value|
      ensures exists m :: 0 <= m < |OrderStates()| && OrderStates()[m].key == OrderStates()[i].transitions.value[j] {
      assert OrderStates()[0].transitions == None;
      TransitionsAreKeys(i, j);
    }
    OrderStateTexts();
  }

  lemma OrderStateKeys()
    ensures |OrderStates()| == 6 && DistinctKeys(OrderStates())
  {
    var ds := OrderStates();
    KeysDiffer();
    forall i, j | 0 <= i < j < |ds| ensures ds[i].key != ds[j].key {
      assert ds[j].key == KeyOf(StateAt(j));
      assert i > 0 ==> ds[i].key == KeyOf(StateAt(i));
      assert i == 0 ==> ds[i].key == SANCTIONED;
    }
  }

  lemma OrderStateTexts()
    ensures HaveTexts(OrderStates())
  {
    var ds := OrderStates();
    forall i | 0 <= i < |ds| ensures ds[i].name.Some? && ds[i].description.Some? {
      assert ds[i].description == ds[0].description || ds[i].description == ds[1].description
             || ds[i].description == ds[2].description || ds[i].description == ds[3].description
             || ds[i].description == ds[4].description || ds[i].description == ds[5].description;
    }
  }

  function StateAt(i: int): LineItemStates.StateKey {
    if i == 1 then LineItemStates.Initial
    else if i == 2 then LineItemStates.Pending
    else if i == 3 then LineItemStates.Processing
    else if i == 4 then LineItemStates.Success
    else LineItemStates.Failure
  }

  lemma TransitionsAreKeys(i: nat, j: nat)
    requires 1 <= i < 6 && OrderStates()[i].transitions.Some? && j < |OrderStates()[i].transitions.value|
    ensures exists m :: 0 <= m < |OrderStates()| && OrderStates()[m].key == OrderStates()[i].transitions.value[j]
  {
    var k := if i == 1 then LineItemStates.Pending
             else if i == 2 then LineItemStates.Processing
             else if i == 3 then (if j == 0 then LineItemStates.Success else LineItemStates.Failure)
             else (if j == 0 then LineItemStates.Pending else LineItemStates.Success);
    assert OrderStates()[DraftOf(k)].key == OrderStates()[i].transitions.value[j];
  }

  /** The transition relation the fulfilment protocol assumes is the one that gets provisioned. */
  lemma DeclaredIsProvisioned(from: LineItemStates.StateKey, to: LineItemStates.StateKey)
    ensures to in LineItemStates.Declared(from)
            <==> exists i :: 0 <= i < |OrderStates()| && OrderStates()[i].key == KeyOf(from)
                             && OrderStates()[i].transitions.Some? && KeyOf(to) in OrderStates()[i].transitions.value
  {
    var ds := OrderStates();
    var i := DraftOf(from);
    OrderStatesAreFit();
    KeysDiffer();
    assert to in LineItemStates.Declared(from) <==> KeyOf(to) in ds[i].transitions.value;
  }
}
