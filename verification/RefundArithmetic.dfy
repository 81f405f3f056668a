/**
 How much a return refunds: the payment's planned amount, allocated to the returned items. Shares are
 exact here; `RefundDecimals` says what the decimal context makes of them.
 */
module RefundArithmetic {
  import opened Decimals

  datatype LineItem = LineItem(id: string, totalCents: int)

  // ----- Shares -----

  /** Minor units to major units, rounded half up to the currency's precision. */
  function QuantizedAmount(cents: real, fractionDigits: nat): real {
    var units := cents / Pow10(fractionDigits);
    RoundHalfUp(units * Pow10(fractionDigits)) as real / Pow10(fractionDigits)
  }

  function SumTotals(items: seq<LineItem>, ids: seq<string>): int {
    if items == [] then 0
    else (if items[0].id in ids then items[0].totalCents else 0) + SumTotals(items[1..], ids)
  }

  /** Each returned item gets the share of `planned` that its total has in the order total. */
  function SumShares(items: seq<LineItem>, ids: seq<string>, orderTotal: int, planned: int): real
    requires orderTotal != 0
  {
    if items == [] then 0.0
    else
      (if items[0].id in ids then items[0].totalCents as real / orderTotal as real * planned as real else 0.0)
      + SumShares(items[1..], ids, orderTotal, planned)
  }

  function ItemIds(items: seq<LineItem>): set<string> {
    set i | 0 <= i < |items| :: items[i].id
  }

  predicate ReturnsEverything(items: seq<LineItem>, ids: seq<string>) {
    |ids| == |ItemIds(items)| && (set id | id in ids) == ItemIds(items)
  }

  // ----- The amount in minor units -----

  /** The decision of get_line_item_price_to_refund, in minor units. */
  function RefundCents(items: seq<LineItem>, orderTotal: int, planned: int, ids: seq<string>): int {
    if planned == 0 || orderTotal == 0 then 0
    else if |items| > 1 then
      if ReturnsEverything(items, ids) then planned
      else if planned == orderTotal then SumTotals(items, ids)
      else
        var rounded := RoundHalfUp(SumShares(items, ids, orderTotal, planned));
        if rounded <= planned then rounded else planned
    else if |items| == 1 && items[0].id in ids then planned
    else 0
  }

  lemma QuantizedIsRoundedCents(cents: real, fractionDigits: nat)
    ensures QuantizedAmount(cents, fractionDigits) == RoundHalfUp(cents) as real / Pow10(fractionDigits)
  {
    CancelFactor(cents, Pow10(fractionDigits));
  }

  lemma DivideMonotone(x: int, y: int, p: real)
    requires p > 0.0
    ensures x <= y <==> x as real / p <= y as real / p
  {
    if x <= y {
      assert (y - x) as real / p >= 0.0;
      assert y as real / p - x as real / p == (y - x) as real / p;
    } else {
      assert (x - y) as real / p > 0.0;
      assert x as real / p - y as real / p == (x - y) as real / p;
    }
  }

  // ----- Proportional allocation in closed form -----

  function AllTotals(items: seq<LineItem>): int {
    if items == [] then 0 else items[0].totalCents + AllTotals(items[1..])
  }

  /** Line totals are not negative and add up to the order total. */
  predicate Priced(items: seq<LineItem>, orderTotal: int) {
    (forall i :: 0 <= i < |items| ==> items[i].totalCents >= 0) && AllTotals(items) == orderTotal
  }

  function Share(part: int, orderTotal: int, planned: int): real
    requires orderTotal != 0
  {
    part as real / orderTotal as real * planned as real
  }

  lemma ShareAdds(x: int, y: int, orderTotal: int, planned: int)
    requires orderTotal != 0
    ensures Share(x, orderTotal, planned) + Share(y, orderTotal, planned) == Share(x + y, orderTotal, planned)
  {
    var t, p := orderTotal as real, planned as real;
    assert x as real / t + y as real / t == (x as real + y as real) / t;
    assert (x as real / t + y as real / t) * p == x as real / t * p + y as real / t * p;
  }

  lemma ShareMonotone(x: int, y: int, orderTotal: int, planned: int)
    requires x <= y && orderTotal > 0 && planned >= 0
    ensures Share(x, orderTotal, planned) <= Share(y, orderTotal, planned)
  {
    DivideMonotone(x, y, orderTotal as real);
    MultiplyMonotone(x as real / orderTotal as real, y as real / orderTotal as real, planned as real);
  }

  lemma MultiplyMonotone(x: real, y: real, p: real)
    requires x <= y && p >= 0.0
    ensures x * p <= y * p
  {
    assert (y - x) * p >= 0.0;
  }

  lemma ShareOfWhole(orderTotal: int, planned: int)
    requires orderTotal != 0
    ensures Share(orderTotal, orderTotal, planned) == planned as real
    ensures Share(0, orderTotal, planned) == 0.0
  {
    assert orderTotal as real / orderTotal as real == 1.0;
    assert 0.0 / orderTotal as real == 0.0;
  }

  lemma ShareOfEqual(part: int, orderTotal: int)
    requires orderTotal != 0
    ensures Share(part, orderTotal, orderTotal) == part as real
  {
    assert part as real / orderTotal as real * orderTotal as real == part as real;
  }

  lemma {:induction false} SharesAreShareOfSum(items: seq<LineItem>, ids: seq<string>, orderTotal: int, planned: int)
    requires orderTotal != 0
    ensures SumShares(items, ids, orderTotal, planned) == Share(SumTotals(items, ids), orderTotal, planned)
  {
    ShareOfWhole(orderTotal, planned);
    if items != [] {
      SharesAreShareOfSum(items[1..], ids, orderTotal, planned);
      var head := if items[0].id in ids then items[0].totalCents else 0;
      ShareAdds(head, SumTotals(items[1..], ids), orderTotal, planned);
    }
  }

  lemma {:induction false} SumTotalsBounds(items: seq<LineItem>, ids: seq<string>)
    requires forall i :: 0 <= i < |items| ==> items[i].totalCents >= 0
    ensures 0 <= SumTotals(items, ids) <= AllTotals(items)
    ensures ItemIds(items) <= (set id | id in ids) ==> SumTotals(items, ids) == AllTotals(items)
  {
    if items != [] {
      SumTotalsBounds(items[1..], ids);
      assert items[0].id in ItemIds(items);
      assert ItemIds(items[1..]) <= ItemIds(items) by {
        forall id | id in ItemIds(items[1..]) ensures id in ItemIds(items) {
          var i :| 0 <= i < |items[1..]| && items[1..][i].id == id;
          assert items[i + 1].id == id;
        }
      }
    }
  }

  /** One closed form for every branch, the early exits and the cap included: the half-up rounding
      of the returned items' exact share of the planned amount. */
  lemma RefundIsRoundedShare(items: seq<LineItem>, orderTotal: int, planned: int, ids: seq<string>)
    requires Priced(items, orderTotal) && orderTotal > 0 && planned >= 0
    ensures RefundCents(items, orderTotal, planned, ids)
            == RoundHalfUp(Share(SumTotals(items, ids), orderTotal, planned))
    ensures 0.0 <= Share(SumTotals(items, ids), orderTotal, planned) <= planned as real
  {
    var part := SumTotals(items, ids);
    SumTotalsBounds(items, ids);
    ShareOfWhole(orderTotal, planned);
    ShareMonotone(0, part, orderTotal, planned);
    ShareMonotone(part, orderTotal, orderTotal, planned);
    SharesAreShareOfSum(items, ids, orderTotal, planned);
    RoundHalfUpMonotone(Share(part, orderTotal, planned), planned as real);
    RoundHalfUpOfInt(planned);
    RoundHalfUpOfInt(part);
    RoundHalfUpOfInt(0);
    ShareOfEqual(part, orderTotal);
    if |items| == 1 {
      assert items[1..] == [];
      assert AllTotals(items) == items[0].totalCents;
    }
    if planned == 0 {
      assert Share(part, orderTotal, 0) == 0.0;
    }
  }

  /** Only membership in the order matters: duplicates, foreign ids and the order of the request
      do not. */
  lemma RefundDependsOnRequestedItemsOnly(items: seq<LineItem>, orderTotal: int, planned: int, ids: seq<string>,
                                          ids': seq<string>)
    requires Priced(items, orderTotal) && orderTotal > 0 && planned >= 0
    requires forall id :: id in ItemIds(items) ==> (id in ids <==> id in ids')
    ensures RefundCents(items, orderTotal, planned, ids) == RefundCents(items, orderTotal, planned, ids')
  {
    RefundMonotone(items, orderTotal, planned, ids, ids');
    RefundMonotone(items, orderTotal, planned, ids', ids);
  }

  lemma {:induction false} SumTotalsMonotone(items: seq<LineItem>, ids: seq<string>, ids': seq<string>)
    requires forall i :: 0 <= i < |items| ==> items[i].totalCents >= 0
    requires forall i :: 0 <= i < |items| && items[i].id in ids ==> items[i].id in ids'
    ensures SumTotals(items, ids) <= SumTotals(items, ids')
  {
    if items != [] {
      SumTotalsMonotone(items[1..], ids, ids');
    }
  }

  /** Asking for more of the order's items never refunds less, and the refund lies between nothing
      and the planned amount. */
  lemma RefundMonotone(items: seq<LineItem>, orderTotal: int, planned: int, ids: seq<string>, ids': seq<string>)
    requires Priced(items, orderTotal) && orderTotal > 0 && planned >= 0
    requires forall id :: id in ItemIds(items) && id in ids ==> id in ids'
    ensures 0 <= RefundCents(items, orderTotal, planned, ids) <= RefundCents(items, orderTotal, planned, ids')
            <= planned
  {
    forall i | 0 <= i < |items| && items[i].id in ids ensures items[i].id in ids' {
      assert items[i].id in ItemIds(items);
    }
    SumTotalsMonotone(items, ids, ids');
    RefundIsRoundedShare(items, orderTotal, planned, ids);
    RefundIsRoundedShare(items, orderTotal, planned, ids');
    var small, large := Share(SumTotals(items, ids), orderTotal, planned),
        Share(SumTotals(items, ids'), orderTotal, planned);
    ShareMonotone(SumTotals(items, ids), SumTotals(items, ids'), orderTotal, planned);
    RoundHalfUpMonotone(0.0, small);
    RoundHalfUpMonotone(small, large);
    RoundHalfUpMonotone(large, planned as real);
    RoundHalfUpOfInt(0);
    RoundHalfUpOfInt(planned);
  }

  /** The final cap is dead code when the line totals add up: the rounded share never exceeds the
      planned amount. */
  lemma CapNeverBinds(items: seq<LineItem>, orderTotal: int, planned: int, ids: seq<string>)
    requires Priced(items, orderTotal) && orderTotal > 0 && planned >= 0
    ensures RoundHalfUp(SumShares(items, ids, orderTotal, planned)) <= planned
  {
    RefundIsRoundedShare(items, orderTotal, planned, ids);
    SharesAreShareOfSum(items, ids, orderTotal, planned);
    RoundHalfUpMonotone(SumShares(items, ids, orderTotal, planned), planned as real);
    RoundHalfUpOfInt(planned);
  }

  /** The branch that adds up line totals as they are. */
  predicate AddsTotalsAsIs(items: seq<LineItem>, orderTotal: int, planned: int, ids: seq<string>) {
    planned == orderTotal && planned != 0 && |items| > 1 && !ReturnsEverything(items, ids)
  }

  /** Without assuming that line totals add up, "never exceeds amount_planned" (the promise of the
      function's documentation) fails in one branch only, and there exactly when the requested
      totals exceed the order total. Every other branch is capped, whatever the totals are. */
  lemma NeverExceedsPlannedExactlyWhen(items: seq<LineItem>, orderTotal: int, planned: int, ids: seq<string>)
    requires planned >= 0
    ensures RefundCents(items, orderTotal, planned, ids) <= planned
            <==> (AddsTotalsAsIs(items, orderTotal, planned, ids) ==> SumTotals(items, ids) <= orderTotal)
  {
  }

  /** A request on which the documented bound fails: two items of 60 in an order of 100. */
  lemma ExceedsPlannedExample()
    ensures RefundCents([LineItem("a", 60), LineItem("b", 60), LineItem("c", 0)], 100, 100, ["a", "b"]) == 120
  {
    var items := [LineItem("a", 60), LineItem("b", 60), LineItem("c", 0)];
    assert items[2].id in ItemIds(items);
    assert "c" !in (set id | id in ["a", "b"]);
    assert items[1..] == [LineItem("b", 60), LineItem("c", 0)];
    assert items[1..][1..] == [LineItem("c", 0)];
    assert SumTotals([LineItem("c", 0)], ["a", "b"]) == 0;
    assert SumTotals(items[1..], ["a", "b"]) == 60;
  }

  // ----- Splitting an order into partial refunds -----

  function Hits(id: string, parts: seq<seq<string>>): nat {
    if parts == [] then 0 else (if id in parts[0] then 1 else 0) + Hits(id, parts[1..])
  }

  /** Every item of the order is requested by exactly one of the partial returns. */
  predicate Splits(items: seq<LineItem>, parts: seq<seq<string>>) {
    forall i :: 0 <= i < |items| ==> Hits(items[i].id, parts) == 1
  }

  function SumOfRefunds(items: seq<LineItem>, orderTotal: int, planned: int, parts: seq<seq<string>>): int {
    if parts == [] then 0
    else RefundCents(items, orderTotal, planned, parts[0]) + SumOfRefunds(items, orderTotal, planned, parts[1..])
  }

  function SumOfTotals(items: seq<LineItem>, parts: seq<seq<string>>): int {
    if parts == [] then 0 else SumTotals(items, parts[0]) + SumOfTotals(items, parts[1..])
  }

  function WeightedTotals(items: seq<LineItem>, parts: seq<seq<string>>): int {
    if items == [] then 0 else items[0].totalCents * Hits(items[0].id, parts) + WeightedTotals(items[1..], parts)
  }

  lemma {:induction false} WeightedSplitsOff(items: seq<LineItem>, parts: seq<seq<string>>)
    requires parts != []
    ensures WeightedTotals(items, parts) == SumTotals(items, parts[0]) + WeightedTotals(items, parts[1..])
  {
    if items != [] {
      WeightedSplitsOff(items[1..], parts);
      var t, h := items[0].totalCents, Hits(items[0].id, parts[1..]);
      assert t * (1 + h) == t + t * h;
    }
  }

  lemma {:induction false} TotalsCountHits(items: seq<LineItem>, parts: seq<seq<string>>)
    ensures SumOfTotals(items, parts) == WeightedTotals(items, parts)
  {
    if parts == [] {
      NoParts(items);
    } else {
      TotalsCountHits(items, parts[1..]);
      WeightedSplitsOff(items, parts);
    }
  }

  lemma NoParts(items: seq<LineItem>)
    ensures WeightedTotals(items, []) == 0
  {
  }

  lemma {:induction false} SplitsAreExhaustive(items: seq<LineItem>, parts: seq<seq<string>>)
    requires Splits(items, parts)
    ensures WeightedTotals(items, parts) == AllTotals(items)
  {
    if items != [] {
      assert Hits(items[0].id, parts) == 1;
      assert forall i :: 0 <= i < |items[1..]| ==> items[1..][i] == items[i + 1];
      SplitsAreExhaustive(items[1..], parts);
    }
  }

  lemma {:induction false} ErrorPerPart(items: seq<LineItem>, orderTotal: int, planned: int, parts: seq<seq<string>>)
    requires Priced(items, orderTotal) && orderTotal > 0 && planned >= 0
    ensures -(|parts| as real) / 2.0
            <= SumOfRefunds(items, orderTotal, planned, parts) as real - Share(SumOfTotals(items, parts), orderTotal,
                planned)
            <= |parts| as real / 2.0
    ensures planned == orderTotal ==> SumOfRefunds(items, orderTotal, planned, parts) == SumOfTotals(items, parts)
  {
    if parts == [] {
      ShareOfWhole(orderTotal, planned);
    } else {
      ErrorPerPart(items, orderTotal, planned, parts[1..]);
      var part := SumTotals(items, parts[0]);
      RefundIsRoundedShare(items, orderTotal, planned, parts[0]);
      RoundHalfUpIsNearest(Share(part, orderTotal, planned));
      ShareAdds(part, SumOfTotals(items, parts[1..]), orderTotal, planned);
      assert |parts| as real == |parts[1..]| as real + 1.0;
      if planned == orderTotal {
        ShareOfEqual(part, orderTotal);
        RoundHalfUpOfInt(part);
      }
    }
  }

  /** Splitting an order into k disjoint partial refunds that cover it refunds the planned amount
      exactly when it equals the order total, and otherwise lands within k/2 minor units of it. */
  lemma SplitRefundsAddUp(items: seq<LineItem>, orderTotal: int, planned: int, parts: seq<seq<string>>)
    requires Priced(items, orderTotal) && orderTotal > 0 && planned >= 0
    requires Splits(items, parts)
    ensures planned == orderTotal ==> SumOfRefunds(items, orderTotal, planned, parts) == planned
    ensures -|parts| <= 2 * (SumOfRefunds(items, orderTotal, planned, parts) - planned) <= |parts|
  {
    TotalsCountHits(items, parts);
    SplitsAreExhaustive(items, parts);
    ErrorPerPart(items, orderTotal, planned, parts);
    ShareOfWhole(orderTotal, planned);
    var error := SumOfRefunds(items, orderTotal, planned, parts) - planned;
    assert error as real == SumOfRefunds(items, orderTotal, planned, parts) as real - planned as real;
    assert -(|parts| as real) <= 2.0 * error as real <= |parts| as real;
    assert 2.0 * error as real == (2 * error) as real;
  }

  lemma {:induction false} NothingFromAFreeOrder(items: seq<LineItem>, planned: int, parts: seq<seq<string>>)
    ensures SumOfRefunds(items, 0, planned, parts) == 0
  {
    if parts != [] {
      NothingFromAFreeOrder(items, planned, parts[1..]);
    }
  }

  /** The positive order total is needed: a free order refunds nothing, so the bound holds exactly
      when the order total is positive or the planned amount is itself within k/2 minor units. */
  lemma SplitBoundExactlyWhen(items: seq<LineItem>, orderTotal: int, planned: int, parts: seq<seq<string>>)
    requires Priced(items, orderTotal) && orderTotal >= 0 && planned >= 0
    requires Splits(items, parts)
    ensures -|parts| <= 2 * (SumOfRefunds(items, orderTotal, planned, parts) - planned) <= |parts|
            <==> orderTotal > 0 || 2 * planned <= |parts|
  {
    if orderTotal > 0 {
      SplitRefundsAddUp(items, orderTotal, planned, parts);
    } else {
      NothingFromAFreeOrder(items, planned, parts);
    }
  }
}
