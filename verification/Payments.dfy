/** Payments with their transactions, and the searches the refund code makes in them. */
module Payments {
  import opened Wrappers
  import opened StableSort
  import opened Decimals
  import opened SignificantDigits

  datatype Kind = Charge | Refund | OtherKind

  datatype TransactionState = TransactionSuccess | TransactionPending | TransactionFailure

  datatype Transaction = Transaction(
    id: string,
    kind: Kind,
    interactionId: Option<string>,
    cents: int,
    currency: string,
    fractionDigits: nat,
    timestamp: int,
    state: TransactionState)

  /** `tags` are the custom fields set on transactions, by transaction id. Amounts are kept in the
      payment's currency. */
  datatype Payment = Payment(
    transactions: seq<Transaction>,
    tags: map<string, string>,
    amountPlanned: int,
    currency: string,
    fractionDigits: nat)

  // ----- Refunds in a list of transactions -----

  predicate IsRefundOf(t: Transaction, interactionId: Option<string>) {
    t.kind == Refund && t.interactionId == interactionId
  }

  predicate HasRefund(ts: seq<Transaction>, interactionId: Option<string>) {
    exists i :: 0 <= i < |ts| && IsRefundOf(ts[i], interactionId)
  }

  /** At most one refund transaction per refund of the payment provider. */
  ghost predicate UniqueRefunds(ts: seq<Transaction>) {
    forall i, j :: 0 <= i < j < |ts| && ts[i].kind == Refund && ts[i].interactionId.Some?
      ==> !IsRefundOf(ts[j], ts[i].interactionId)
  }

  lemma UniqueAfterAppend(ts: seq<Transaction>, t: Transaction)
    ensures UniqueRefunds(ts + [t])
            <==> UniqueRefunds(ts) && !(t.kind == Refund && t.interactionId.Some? && HasRefund(ts, t.interactionId))
  {
    var ts' := ts + [t];
    if UniqueRefunds(ts') {
      forall i, j | 0 <= i < j < |ts| && ts[i].kind == Refund && ts[i].interactionId.Some?
        ensures !IsRefundOf(ts[j], ts[i].interactionId) {
        assert ts'[i] == ts[i] && ts'[j] == ts[j];
      }
      forall i | 0 <= i < |ts| && t.kind == Refund && t.interactionId.Some?
        ensures !IsRefundOf(ts[i], t.interactionId) {
        assert ts'[i] == ts[i] && ts'[|ts|] == t;
      }
    }
  }

  /** is_transaction_already_refunded */
  method IsTransactionAlreadyRefunded(ts: seq<Transaction>, refundId: string) returns (found: bool)
    ensures found <==> HasRefund(ts, Some(refundId))
  {
    for i := 0 to |ts|
      invariant forall j :: 0 <= j < i ==> !IsRefundOf(ts[j], Some(refundId))
    {
      if ts[i].kind == Refund && ts[i].interactionId == Some(refundId) {
        return true;
      }
    }
    return false;
  }

  function SumOf(ts: seq<Transaction>, kind: Kind): int {
    if ts == [] then 0
    else SumOf(ts[..|ts| - 1], kind) + if ts[|ts| - 1].kind == kind then ts[|ts| - 1].cents else 0
  }

  /** Python's floats: 53 binary digits. */
  function Float(x: real): real {
    Round(x, Double)
  }

  /** cents_to_dollars: one division. */
  function Dollars(t: Transaction, round: real -> real): real {
    round(t.cents as real / Pow10(t.fractionDigits))
  }

  function DollarSum(ts: seq<Transaction>, kind: Kind, round: real -> real): real {
    if ts == [] then 0.0
    else
      var before, last := DollarSum(ts[..|ts| - 1], kind, round), ts[|ts| - 1];
      if last.kind == kind then round(before + Dollars(last, round)) else before
  }

  /** Recorded refunds equal recorded charges, in the code's arithmetic. A payment without either counts as
      fully refunded. */
  predicate FullyRefunded(ts: seq<Transaction>) {
    DollarSum(ts, Refund, Float) == DollarSum(ts, Charge, Float)
  }

  /** has_full_refund_transaction */
  method HasFullRefundTransaction(ts: seq<Transaction>) returns (full: bool)
    ensures full <==> FullyRefunded(ts)
  {
    var chargeAmount, refundedAmount := 0.0, 0.0;
    for i := 0 to |ts|
      invariant chargeAmount == DollarSum(ts[..i], Charge, Float) && refundedAmount == DollarSum(ts[..i], Refund, Float)
    {
      assert ts[..i + 1][..i] == ts[..i];
      if ts[i].kind == Charge {
        chargeAmount := Float(chargeAmount + Dollars(ts[i], Float));
      }
      if ts[i].kind == Refund {
        refundedAmount := Float(refundedAmount + Dollars(ts[i], Float));
      }
    }
    assert ts[..|ts|] == ts;
    return refundedAmount == chargeAmount;
  }

  /** The interaction id of the last charge. */
  function LastChargeInteraction(ts: seq<Transaction>): Option<string> {
    if ts == [] then None
    else if ts[|ts| - 1].kind == Charge then ts[|ts| - 1].interactionId
    else LastChargeInteraction(ts[..|ts| - 1])
  }

  /** The loop of get_edx_refund_info. */
  method GetChargeInteraction(ts: seq<Transaction>) returns (interactionId: Option<string>)
    ensures interactionId == LastChargeInteraction(ts)
  {
    interactionId := None;
    for i := 0 to |ts|
      invariant interactionId == LastChargeInteraction(ts[..i])
    {
      assert ts[..i + 1][..i] == ts[..i];
      if ts[i].kind == Charge {
        interactionId := ts[i].interactionId;
      }
    }
    assert ts[..|ts|] == ts;
  }

  // ----- What is recorded of a refund -----

  function Upper(s: string): string {
    if s == "" then ""
    else [if 'a' <= s[0] <= 'z' then (s[0] as int - 32) as char else s[0]] + Upper(s[1..])
  }

  function Lower(s: string): string {
    if s == "" then ""
    else [if 'A' <= s[0] <= 'Z' then (s[0] as int + 32) as char else s[0]] + Lower(s[1..])
  }

  /** translate_refund_status_to_transaction_status; an unknown status counts as success */
  function TranslateStatus(status: string): TransactionState {
    var s := Lower(status);
    if s == "pending" then TransactionPending
    else if s == "failed" || s == "canceled" then TransactionFailure
    else TransactionSuccess
  }

  /** PayPal reports dollars as a text; the code multiplies the float by a hundred and truncates. */
  function PayPalCents(cents: int): int {
    Truncate(PayPalProduct(cents))
  }

  function PayPalProduct(cents: int): real {
    Float(Float(cents as real / 100.0) * 100.0)
  }

  // ----- The transaction a return item points to -----

  /** find_refund_transaction; the empty text when there is none */
  function FindRefundTransaction(ts: seq<Transaction>, interactionId: Option<string>): string {
    if ts == [] then ""
    else if IsRefundOf(ts[0], interactionId) then ts[0].id
    else FindRefundTransaction(ts[1..], interactionId)
  }

  function Timestamp(t: Transaction): int {
    t.timestamp
  }

  predicate IsRefund(t: Transaction) {
    t.kind == Refund
  }

  function FirstRefund(ts: seq<Transaction>): string {
    if ts == [] then "" else if IsRefund(ts[0]) then ts[0].id else FirstRefund(ts[1..])
  }

  /** find_latest_refund: sort by timestamp, newest first, and take the first refund. */
  function FindLatestRefund(ts: seq<Transaction>): string {
    FirstRefund(SortDescending(ts, Timestamp))
  }

  function ResolveTransaction(ts: seq<Transaction>, interactionId: Option<string>): string {
    var found := FindRefundTransaction(ts, interactionId);
    if found != "" then found else FindLatestRefund(ts)
  }

  lemma {:induction false} FirstRefundIsHeadOfRefunds(ts: seq<Transaction>)
    ensures FirstRefund(ts) == if Filter(ts, IsRefund) == [] then "" else Filter(ts, IsRefund)[0].id
  {
    if ts != [] {
      FirstRefundIsHeadOfRefunds(ts[1..]);
    }
  }

  /** Which transaction that is: among the refunds none is newer, and among the newest it is the one
      recorded first. */
  ghost predicate IsLatestRefund(ts: seq<Transaction>, k: nat) {
    k < |ts| && IsRefund(ts[k])
    && (forall j :: 0 <= j < |ts| && IsRefund(ts[j]) ==> ts[j].timestamp <= ts[k].timestamp)
    && (forall j :: 0 <= j < k && IsRefund(ts[j]) ==> ts[j].timestamp < ts[k].timestamp)
  }

  /** Every refund before position k is among the first m of the filtered list. */
  ghost predicate CoveredBefore(ts: seq<Transaction>, k: nat, m: nat)
    requires k <= |ts| && m <= |Filter(ts, IsRefund)|
  {
    forall j :: 0 <= j < k && IsRefund(ts[j]) ==> exists i :: 0 <= i < m && Filter(ts, IsRefund)[i] == ts[j]
  }

  lemma CoveredCons(ts: seq<Transaction>, k: nat, m: nat)
    requires ts != [] && k < |ts| && m <= |Filter(ts[1..], IsRefund)| && CoveredBefore(ts[1..], k, m)
    ensures IsRefund(ts[0]) ==> m + 1 <= |Filter(ts, IsRefund)| && CoveredBefore(ts, k + 1, m + 1)
    ensures !IsRefund(ts[0]) ==> m <= |Filter(ts, IsRefund)| && CoveredBefore(ts, k + 1, m)
  {
    var n := if IsRefund(ts[0]) then 1 else 0;
    FilterCons(ts);
    forall j | 0 <= j < k + 1 && IsRefund(ts[j])
      ensures exists i :: 0 <= i < m + n && Filter(ts, IsRefund)[i] == ts[j] {
      if j == 0 {
        assert Filter(ts, IsRefund)[0] == ts[0];
      } else {
        var i := CoveredAt(ts[1..], k, m, j - 1);
        assert ts[1..][j - 1] == ts[j];
        assert Filter(ts, IsRefund)[i + n] == ts[j];
      }
    }
  }

  lemma CoveredAt(ts: seq<Transaction>, k: nat, m: nat, j: nat) returns (i: nat)
    requires k <= |ts| && m <= |Filter(ts, IsRefund)| && CoveredBefore(ts, k, m) && j < k && IsRefund(ts[j])
    ensures i < m && Filter(ts, IsRefund)[i] == ts[j]
  {
    i :| 0 <= i < m && Filter(ts, IsRefund)[i] == ts[j];
  }

  lemma FilterCons(ts: seq<Transaction>)
    requires ts != []
    ensures Filter(ts, IsRefund) == (if IsRefund(ts[0]) then [ts[0]] else []) + Filter(ts[1..], IsRefund)
  {
  }

  /** Where the m-th refund is among the refunds of the rest. */
  lemma FilterIndex(ts: seq<Transaction>, m: nat) returns (n: nat)
    requires m < |Filter(ts, IsRefund)| && (ts != [] && IsRefund(ts[0]) ==> m > 0)
    ensures ts != [] && n < |Filter(ts[1..], IsRefund)| && Filter(ts[1..], IsRefund)[n] == Filter(ts, IsRefund)[m]
    ensures n == if IsRefund(ts[0]) then m - 1 else m
  {
    FilterCons(ts);
    n := if IsRefund(ts[0]) then m - 1 else m;
  }

  lemma {:induction false} FilterPosition(ts: seq<Transaction>, m: nat) returns (k: nat)
    requires m < |Filter(ts, IsRefund)|
    ensures k < |ts| && ts[k] == Filter(ts, IsRefund)[m] && IsRefund(ts[k])
    ensures CoveredBefore(ts, k, m)
  {
    FilterCons(ts);
    if IsRefund(ts[0]) && m == 0 {
      k := 0;
    } else {
      var n := FilterIndex(ts, m);
      var k' := FilterPosition(ts[1..], n);
      CoveredCons(ts, k', n);
      k := k' + 1;
    }
  }

  lemma LatestRefundFound(ts: seq<Transaction>)
    ensures (exists i :: 0 <= i < |ts| && IsRefund(ts[i]))
            ==> exists k: nat :: IsLatestRefund(ts, k) && FindLatestRefund(ts) == ts[k].id
    ensures (forall i :: 0 <= i < |ts| ==> !IsRefund(ts[i])) ==> FindLatestRefund(ts) == ""
  {
    var f := Filter(ts, IsRefund);
    FirstRefundIsHeadOfRefunds(SortDescending(ts, Timestamp));
    FilterCommutesWithSort(ts, Timestamp, IsRefund);
    assert FindLatestRefund(ts) == if SortDescending(f, Timestamp) == [] then ""
           else SortDescending(f, Timestamp)[0].id;
    assert f != [] ==> f[0] in f;
    if i :| 0 <= i < |ts| && IsRefund(ts[i]) {
      assert ts[i] in f;
      var m := HeadIsFirstMaximum(f, Timestamp);
      var k := FilterPosition(ts, m);
      forall j | 0 <= j < |ts| && IsRefund(ts[j]) ensures ts[j].timestamp <= ts[k].timestamp {
        assert ts[j] in f;
        var n :| 0 <= n < |f| && f[n] == ts[j];
        assert Timestamp(f[n]) <= Timestamp(f[m]);
      }
      forall j | 0 <= j < k && IsRefund(ts[j]) ensures ts[j].timestamp < ts[k].timestamp {
        var n :| 0 <= n < m && f[n] == ts[j];
        assert Timestamp(f[n]) < Timestamp(f[m]);
      }
      assert IsLatestRefund(ts, k);
    }
  }

  lemma {:induction false} RefundTransactionFound(ts: seq<Transaction>, interactionId: Option<string>)
    ensures HasRefund(ts, interactionId)
            ==> exists k ::
                0 <= k < |ts| && IsRefundOf(ts[k], interactionId)
                && FindRefundTransaction(ts, interactionId) == ts[k].id
    ensures !HasRefund(ts, interactionId) ==> FindRefundTransaction(ts, interactionId) == ""
  {
    if ts != [] && !IsRefundOf(ts[0], interactionId) {
      RefundTransactionFound(ts[1..], interactionId);
      if HasRefund(ts, interactionId) {
        var i :| 0 <= i < |ts| && IsRefundOf(ts[i], interactionId);
        assert ts[1..][i - 1] == ts[i];
        var k :| 0 <= k < |ts[1..]| && IsRefundOf(ts[1..][k], interactionId)
            && FindRefundTransaction(ts[1..], interactionId) == ts[1..][k].id;
        assert ts[k + 1] == ts[1..][k];
      }
    }
  }
}
