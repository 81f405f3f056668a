/** The refund as the code computes it: in the decimal context, which keeps 28 digits of the result of every
    operation, and rounded half up to the currency's precision at the end. `Dec` is the context's rounding,
    which the functions take as an argument. */
module RefundDecimals {
  import opened Decimals
  import opened SignificantDigits
  import opened RefundArithmetic

  function Dec(x: real): real {
    Round(x, Decimal28)
  }

  lemma DecRounds()
    ensures Rounds(Dec, Decimal28)
  {
    forall x: real | x >= 0.0 ensures Close(Dec(x), x, Decimal28) && Dec(x) >= 0.0 {
      RoundIsClose(x, Decimal28);
    }
  }

  function Times(x: real, y: real): real {
    x * y
  }

  /** get_quantized_amount */
  function Quantized(cents: real, fractionDigits: nat, dec: real -> real): real {
    QuantizedBy(cents, Pow10(fractionDigits), dec)
  }

  function QuantizedBy(cents: real, scale: real, dec: real -> real): real
    requires scale > 0.0
  {
    RoundHalfUp(Times(dec(cents / scale), scale)) as real / scale
  }

  /** A line item's share of `planned`: a division and a multiplication. */
  function ShareTerm(total: int, orderTotal: int, planned: int, dec: real -> real): real
    requires orderTotal != 0
  {
    dec(Times(dec(total as real / orderTotal as real), planned as real))
  }

  function ShareTerms(items: seq<LineItem>, ids: seq<string>, orderTotal: int, planned: int,
                      dec: real -> real): seq<real>
    requires orderTotal != 0
  {
    if items == [] then []
    else
      var last := items[|items| - 1];
      ShareTerms(items[..|items| - 1], ids, orderTotal, planned, dec)
      + if last.id in ids then [ShareTerm(last.totalCents, orderTotal, planned, dec)] else []
  }

  function DecimalShares(items: seq<LineItem>, ids: seq<string>, orderTotal: int, planned: int, dec: real -> real): real
    requires orderTotal != 0
  {
    Accumulate(ShareTerms(items, ids, orderTotal, planned, dec), dec)
  }

  function Min(x: real, y: real): real {
    if x <= y then x else y
  }

  function PriceToRefund(
    items: seq<LineItem>, orderTotal: int, planned: int, fractionDigits: nat, ids: seq<string>, dec: real -> real): real
  {
    if planned == 0 || orderTotal == 0 then Quantized(0.0, fractionDigits, dec)
    else if |items| > 1 then
      if ReturnsEverything(items, ids) then Quantized(planned as real, fractionDigits, dec)
      else if planned == orderTotal then Quantized(SumTotals(items, ids) as real, fractionDigits, dec)
      else Min(Quantized(DecimalShares(items, ids, orderTotal, planned, dec), fractionDigits, dec),
               Quantized(planned as real, fractionDigits, dec))
    else if |items| == 1 && items[0].id in ids then Quantized(planned as real, fractionDigits, dec)
    else Quantized(0.0, fractionDigits, dec)
  }

  lemma NextShare(items: seq<LineItem>, ids: seq<string>, orderTotal: int, planned: int, dec: real -> real, i: nat)
    requires orderTotal != 0 && i < |items|
    ensures DecimalShares(items[..i + 1], ids, orderTotal, planned, dec)
            == (var before := DecimalShares(items[..i], ids, orderTotal, planned, dec);
                if items[i].id in ids then dec(before + ShareTerm(items[i].totalCents, orderTotal, planned, dec))
                else before)
  {
    assert items[..i + 1][..i] == items[..i];
    var terms := ShareTerms(items[..i], ids, orderTotal, planned, dec);
    if items[i].id in ids {
      assert (terms + [ShareTerm(items[i].totalCents, orderTotal, planned, dec)])[..|terms|] == terms;
    } else {
      assert terms + [] == terms;
    }
  }

  method AllocateShares(items: seq<LineItem>, ids: seq<string>, orderTotal: int, planned: int, dec: real -> real)
    returns (refundCents: real)
    requires orderTotal != 0
    ensures refundCents == DecimalShares(items, ids, orderTotal, planned, dec)
  {
    refundCents := 0.0;
    for i := 0 to |items|
      invariant refundCents == DecimalShares(items[..i], ids, orderTotal, planned, dec)
    {
      NextShare(items, ids, orderTotal, planned, dec, i);
      if items[i].id in ids {
        var percentage := dec(items[i].totalCents as real / orderTotal as real);
        refundCents := dec(refundCents + dec(Times(percentage, planned as real)));
      }
    }
    assert items[..|items|] == items;
  }

  /** The branches and loops of get_line_item_price_to_refund. */
  method GetLineItemPriceToRefund(
    items: seq<LineItem>, orderTotal: int, planned: int, fractionDigits: nat, ids: seq<string>, dec: real -> real)
    returns (refund: real)
    ensures refund == PriceToRefund(items, orderTotal, planned, fractionDigits, ids, dec)
  {
    if planned == 0 || orderTotal == 0 {
      return Quantized(0.0, fractionDigits, dec);
    }
    if |items| > 1 {
      var itemIds := {};
      for i := 0 to |items|
        invariant itemIds == ItemIds(items[..i])
      {
        itemIds := itemIds + {items[i].id};
      }
      assert items[..|items|] == items;
      if |ids| == |itemIds| && (set id | id in ids) == itemIds {
        return Quantized(planned as real, fractionDigits, dec);
      }
      if planned == orderTotal {
        var refundCents := 0;
        for i := 0 to |items|
          invariant refundCents + SumTotals(items[i..], ids) == SumTotals(items, ids)
        {
          if items[i].id in ids {
            refundCents := refundCents + items[i].totalCents;
          }
        }
        return Quantized(refundCents as real, fractionDigits, dec);
      }
      var refundCents := AllocateShares(items, ids, orderTotal, planned, dec);
      var refundUnits := Quantized(refundCents, fractionDigits, dec);
      var plannedUnits := Quantized(planned as real, fractionDigits, dec);
      return Min(refundUnits, plannedUnits);
    }
    if |items| == 1 && items[0].id in ids {
      return Quantized(planned as real, fractionDigits, dec);
    }
    return Quantized(0.0, fractionDigits, dec);
  }

  // ----- In minor units -----

  /** The branch that allocates the planned amount by shares. */
  predicate Allocates(items: seq<LineItem>, orderTotal: int, planned: int, ids: seq<string>) {
    planned != 0 && orderTotal != 0 && |items| > 1 && !ReturnsEverything(items, ids) && planned != orderTotal
  }

  function DecimalRefundCents(items: seq<LineItem>, orderTotal: int, planned: int, ids: seq<string>,
                              dec: real -> real): int {
    if Allocates(items, orderTotal, planned, ids) then
      var rounded := RoundHalfUp(DecimalShares(items, ids, orderTotal, planned, dec));
      if rounded <= planned then rounded else planned
    else RefundCents(items, orderTotal, planned, ids)
  }

  lemma {:induction false} PointShifts(x: real, n: nat)
    ensures Dec(x / Pow10(n)) == Dec(x) / Pow10(n)
  {
    if n > 0 {
      PointShifts(x, n - 1);
      RoundShifts(x / Pow10(n - 1), Decimal28);
      DivideByTen(x, Pow10(n - 1));
      DivideByTen(Dec(x), Pow10(n - 1));
    }
  }

  /** Moving the point is exact: what is kept, is kept after moving its point. */
  lemma PointMoves(x: real, n: nat)
    requires Dec(x) == x
    ensures Dec(x / Pow10(n)) == x / Pow10(n)
  {
    PointShifts(x, n);
  }

  lemma DivideByTen(x: real, p: real)
    requires p > 0.0
    ensures x / (10.0 * p) == x / p / 10.0
  {
    CancelFactor(x, p);
    var q := x / p;
    assert q * p == x;
    CancelFactor(q / 10.0, 10.0 * p);
    assert q / 10.0 * (10.0 * p) == x;
  }

  /** Only the final rounding is left. */
  lemma QuantizedIsExact(cents: real, fractionDigits: nat, dec: real -> real)
    requires dec(cents / Pow10(fractionDigits)) == cents / Pow10(fractionDigits)
    ensures Quantized(cents, fractionDigits, dec) == RoundHalfUp(cents) as real / Pow10(fractionDigits)
  {
    ScaledBack(cents, Pow10(fractionDigits), dec);
  }

  lemma ScaledBack(cents: real, scale: real, dec: real -> real)
    requires scale > 0.0 && dec(cents / scale) == cents / scale
    ensures QuantizedBy(cents, scale, dec) == RoundHalfUp(cents) as real / scale
  {
    TimesBack(cents, scale, cents / scale);
    assert Times(dec(cents / scale), scale) == Times(cents / scale, scale);
  }

  lemma TimesBack(x: real, p: real, q: real)
    requires p > 0.0 && q == x / p
    ensures Times(q, p) == x
  {
  }

  /** Amounts of at most 28 digits; the decimal context raises on larger ones. */
  predicate Fits(cents: int) {
    -10_000_000_000_000_000_000_000_000_000 < cents < 10_000_000_000_000_000_000_000_000_000
  }

  lemma WholeIsExact(cents: int, fractionDigits: nat)
    requires Fits(cents)
    ensures Quantized(cents as real, fractionDigits, Dec) == cents as real / Pow10(fractionDigits)
  {
    SmallIntegerIsKept(cents, Decimal28);
    PointMoves(cents as real, fractionDigits);
    QuantizedIsExact(cents as real, fractionDigits, Dec);
    RoundHalfUpOfInt(cents);
  }

  lemma AccumulatedIsExact(terms: seq<real>, fractionDigits: nat)
    ensures var sum := Accumulate(terms, Dec);
            Quantized(sum, fractionDigits, Dec) == RoundHalfUp(sum) as real / Pow10(fractionDigits)
  {
    if terms != [] {
      RoundIsKept(Accumulate(terms[..|terms| - 1], Dec) + terms[|terms| - 1], Decimal28);
    }
    PointMoves(Accumulate(terms, Dec), fractionDigits);
    QuantizedIsExact(Accumulate(terms, Dec), fractionDigits, Dec);
  }

  /** For every currency the price is a whole number of minor units. */
  lemma PriceToRefundIsWholeCents(items: seq<LineItem>, orderTotal: int, planned: int, fractionDigits: nat,
                                  ids: seq<string>)
    requires Fits(planned) && Fits(SumTotals(items, ids))
    ensures PriceToRefund(items, orderTotal, planned, fractionDigits, ids, Dec)
            == DecimalRefundCents(items, orderTotal, planned, ids, Dec) as real / Pow10(fractionDigits)
  {
    WholeIsExact(0, fractionDigits);
    WholeIsExact(planned, fractionDigits);
    WholeIsExact(SumTotals(items, ids), fractionDigits);
    if Allocates(items, orderTotal, planned, ids) {
      AccumulatedIsExact(ShareTerms(items, ids, orderTotal, planned, Dec), fractionDigits);
      DivideMonotone(RoundHalfUp(DecimalShares(items, ids, orderTotal, planned, Dec)), planned, Pow10(fractionDigits));
    }
  }

  // ----- How far the digits reach -----

  function ExactTerms(items: seq<LineItem>, ids: seq<string>, orderTotal: int, planned: int): seq<real>
    requires orderTotal != 0
  {
    if items == [] then []
    else
      var last := items[|items| - 1];
      ExactTerms(items[..|items| - 1], ids, orderTotal, planned)
      + if last.id in ids then [Share(last.totalCents, orderTotal, planned)] else []
  }

  lemma {:induction false} SumTotalsLast(items: seq<LineItem>, ids: seq<string>)
    requires items != []
    ensures var last := items[|items| - 1];
            SumTotals(items, ids) == SumTotals(items[..|items| - 1], ids) + if last.id in ids then last.totalCents
                else 0
  {
    if |items| > 1 {
      SumTotalsLast(items[1..], ids);
      assert items[1..][..|items| - 2] == items[..|items| - 1][1..];
    } else {
      assert items[1..] == [];
    }
  }

  lemma {:induction false} ExactTermsAddUp(items: seq<LineItem>, ids: seq<string>, orderTotal: int, planned: int)
    requires orderTotal != 0
    ensures Sum(ExactTerms(items, ids, orderTotal, planned)) == Share(SumTotals(items, ids), orderTotal, planned)
  {
    ShareOfWhole(orderTotal, planned);
    if items != [] {
      var front, last := items[..|items| - 1], items[|items| - 1];
      var terms := ExactTerms(front, ids, orderTotal, planned);
      ExactTermsAddUp(front, ids, orderTotal, planned);
      SumTotalsLast(items, ids);
      if last.id in ids {
        assert (terms + [Share(last.totalCents, orderTotal, planned)])[..|terms|] == terms;
        ShareAdds(SumTotals(front, ids), last.totalCents, orderTotal, planned);
      } else {
        assert ExactTerms(items, ids, orderTotal, planned) == terms;
      }
    }
  }

  lemma TermIsNear(total: int, orderTotal: int, planned: int, dec: real -> real)
    requires Rounds(dec, Decimal28) && total >= 0 && orderTotal > 0 && planned >= 0
    ensures NearTerm(ShareTerm(total, orderTotal, planned, dec), Share(total, orderTotal, planned), Decimal28)
  {
    var q, p := total as real / orderTotal as real, planned as real;
    Quotient(total as real, orderTotal as real);
    TermFromClose(q, dec(q), p, Times(dec(q), p), dec(Times(dec(q), p)));
  }

  lemma TermFromClose(q: real, r: real, p: real, y: real, z: real)
    requires q >= 0.0 && p >= 0.0 && r >= 0.0 && Close(r, q, Decimal28) && y == Times(r, p)
    requires y >= 0.0 ==> Close(z, y, Decimal28)
    ensures NearTerm(z, q * p, Decimal28)
  {
    ProductIsNear(r, q, p);
    CloseTwice(z, y, q * p);
  }

  lemma ProductIsNear(r: real, q: real, p: real)
    requires Close(r, q, Decimal28) && r >= 0.0 && q >= 0.0 && p >= 0.0
    ensures Close(r * p, q * p, Decimal28) && r * p >= 0.0 && q * p >= 0.0
  {
    var d := (r - q) * (2.0 * Low(Decimal28));
    Product(-q, d, p);
    Product(d, q, p);
    Product(0.0, r, p);
    Product(0.0, q, p);
    assert d * p == (r * p - q * p) * (2.0 * Low(Decimal28));
    NegatedProduct(q, p);
  }

  lemma NegatedProduct(x: real, y: real)
    ensures (-x) * y == -(x * y)
  {
  }

  lemma CloseTwice(z: real, y: real, x: real)
    requires x >= 0.0 && Close(z, y, Decimal28) && Close(y, x, Decimal28)
    ensures NearTerm(z, x, Decimal28)
  {
  }

  lemma {:induction false} TermsAreNear(items: seq<LineItem>, ids: seq<string>, orderTotal: int, planned: int,
                                        dec: real -> real)
    requires Rounds(dec, Decimal28) && orderTotal > 0 && planned >= 0
    requires forall i :: 0 <= i < |items| ==> items[i].totalCents >= 0
    ensures NearTerms(ShareTerms(items, ids, orderTotal, planned, dec), ExactTerms(items, ids, orderTotal, planned),
                      Decimal28)
    ensures |ShareTerms(items, ids, orderTotal, planned, dec)| <= |items|
  {
    if items != [] {
      TermsAreNear(items[..|items| - 1], ids, orderTotal, planned, dec);
      TermIsNear(items[|items| - 1].totalCents, orderTotal, planned, dec);
    }
  }

  /** Enough digits: with amounts of ten digits this leaves room for more than a million items. */
  predicate Precise(items: seq<LineItem>, orderTotal: int, planned: int) {
    6 * |items| * planned * orderTotal < 1_000_000_000_000_000_000_000_000_000
  }

  lemma PreciseProducts(n: nat, orderTotal: int, planned: int, budget: real)
    requires orderTotal > 0 && planned > 0 && 6 * n * planned * orderTotal < 1_000_000_000_000_000_000_000_000_000
    requires budget == 6.0 * (n as real * planned as real)
    ensures budget <= planned as real * Low(Decimal28) && SmallError(budget, orderTotal as real, Decimal28)
  {
    var np := n * planned;
    assert n as real * planned as real == np as real;
    assert 6 * n * planned * orderTotal == 6 * (np * orderTotal);
    assert np as real * orderTotal as real == (np * orderTotal) as real;
    assert np <= np * orderTotal;
    assert planned as real * Low(Decimal28) >= Low(Decimal28);
  }

  predicate DigitsSuffice(n: nat, orderTotal: real, planned: real) {
    Budget(n, planned) <= planned * Low(Decimal28) && SmallError(Budget(n, planned), orderTotal, Decimal28)
  }

  lemma PreciseSuffices(items: seq<LineItem>, orderTotal: int, planned: int)
    requires orderTotal > 0 && planned > 0 && Precise(items, orderTotal, planned)
    ensures DigitsSuffice(|items|, orderTotal as real, planned as real)
  {
    BudgetIsProduct(|items|, planned as real);
    PreciseProducts(|items|, orderTotal, planned, Budget(|items|, planned as real));
  }

  /** Two amounts, not negative, that differ by less than 1/(2t). */
  predicate Near(a: real, share: real, t: real) {
    a >= 0.0 && share >= 0.0 && -1.0 < 2.0 * ((a - share) * t) < 1.0
  }

  lemma ErrorInShares(a: real, share: real, budget: real, t: real)
    requires a >= 0.0 && share >= 0.0 && WithinBudget(a, share, budget, Decimal28)
    requires t > 0.0 && SmallError(budget, t, Decimal28)
    ensures Near(a, share, t)
  {
    ErrorTimes(a, share, budget, t, Decimal28);
  }

  lemma SharesAreWithinBudget(items: seq<LineItem>, ids: seq<string>, orderTotal: int, planned: int, dec: real -> real)
    requires Rounds(dec, Decimal28) && Priced(items, orderTotal) && orderTotal > 0 && planned > 0
    requires Budget(|items|, planned as real) <= planned as real * Low(Decimal28)
    ensures var a, share := DecimalShares(items, ids, orderTotal, planned, dec),
            Share(SumTotals(items, ids), orderTotal, planned);
            a >= 0.0 && share >= 0.0 && WithinBudget(a, share, Budget(|items|, planned as real), Decimal28)
  {
    var terms := ShareTerms(items, ids, orderTotal, planned, dec);
    TermsAreNear(items, ids, orderTotal, planned, dec);
    ExactTermsAddUp(items, ids, orderTotal, planned);
    RefundIsRoundedShare(items, orderTotal, planned, ids);
    BudgetGrows(|terms|, |items|, planned as real);
    AccumulateError(terms, ExactTerms(items, ids, orderTotal, planned), planned as real, dec, Decimal28);
    LargerBudget(DecimalShares(items, ids, orderTotal, planned, dec), Share(SumTotals(items, ids), orderTotal, planned),
                 Budget(|terms|, planned as real), Budget(|items|, planned as real), Decimal28);
  }

  /** The shares are off by less than half of what separates two different exact shares. */
  lemma DecimalSharesAreClose(items: seq<LineItem>, ids: seq<string>, orderTotal: int, planned: int, dec: real -> real)
    requires Rounds(dec, Decimal28) && Priced(items, orderTotal) && orderTotal > 0 && planned > 0
    requires DigitsSuffice(|items|, orderTotal as real, planned as real)
    ensures Near(DecimalShares(items, ids, orderTotal, planned, dec),
                 Share(SumTotals(items, ids), orderTotal, planned), orderTotal as real)
  {
    SharesAreWithinBudget(items, ids, orderTotal, planned, dec);
    ErrorInShares(DecimalShares(items, ids, orderTotal, planned, dec),
                  Share(SumTotals(items, ids), orderTotal, planned),
                  Budget(|items|, planned as real), orderTotal as real);
  }

  // ----- What the digits cost -----

  /** The fraction n/t lies halfway between two integers. */
  predicate IsTie(n: int, t: int)
    requires t > 0
  {
    (2 * n + t) % (2 * t) == 0
  }

  lemma RoundedBetween(a: real, y: real, k: int, t: int, w: int)
    requires a >= 0.0 && t > 0 && y == a * t as real && w == k * (2 * t)
    requires w as real <= 2.0 * y + t as real < (w + 2 * t) as real
    ensures RoundHalfUp(a) == k
  {
    var p := (2 * t) as real;
    IntegerProduct(k, 2 * t, w);
    IntegerProduct(k + 1, 2 * t, w + 2 * t);
    HalfShifted(a, t as real, p);
    FloorFromProducts(a + 0.5, k, p, w as real, (w + 2 * t) as real, 2.0 * y + t as real);
  }

  lemma IntegerProduct(x: int, y: int, z: int)
    requires z == x * y
    ensures z as real == x as real * y as real
  {
  }

  lemma HalfShifted(a: real, t: real, p: real)
    requires p == 2.0 * t
    ensures (a + 0.5) * p == 2.0 * (a * t) + t
  {
  }

  lemma FloorFromProducts(x: real, k: int, p: real, low: real, high: real, y: real)
    requires p > 0.0 && low == k as real * p && high == (k + 1) as real * p && y == x * p && low <= y < high
    ensures x.Floor == k
  {
    Cancel(k as real, x, p);
    if x >= (k + 1) as real { Product((k + 1) as real, x, p); }
  }

  lemma Differences(a: real, share: real, t: real)
    requires t > 0.0
    ensures (a - share) * t == a * t - share * t
    ensures a < share <==> a * t < share * t
  {
    var d := (a - share) * t;
    assert d == a * t - share * t;
    assert a < share ==> d < 0.0;
    assert a >= share ==> d >= 0.0;
  }

  lemma TieParts(n: int, t: int) returns (m: int, r: int)
    requires t > 0
    ensures 0 <= r < 2 * t && 2 * n + t == m * (2 * t) + r && (r == 0 <==> IsTie(n, t))
    ensures (m - 1) * (2 * t) == m * (2 * t) - 2 * t
    ensures 2 * (m * t) == m * (2 * t) && (m - 1) * t == m * t - t
  {
    m, r := (2 * n + t) / (2 * t), (2 * n + t) % (2 * t);
  }

  /** The integer is within half of the fraction n/t. */
  predicate IsNearest(k: int, n: int, t: int) {
    -t <= 2 * (k * t - n) <= t
  }

  /** What rounding `a` gives in place of rounding `share`, the fraction n/t: the same, except at a tie that
      is approximated from below, where it is one less. Both are within half of the fraction. */
  predicate NearlyRounded(n: int, t: int, share: real, a: real)
    requires t > 0
  {
    && (RoundHalfUp(a) == RoundHalfUp(share) <==> (IsTie(n, t) ==> a >= share))
    && (RoundHalfUp(a) == RoundHalfUp(share) || RoundHalfUp(a) == RoundHalfUp(share) - 1)
    && IsNearest(RoundHalfUp(a), n, t)
  }

  /** The bounds that rounding needs, on integers and one real. */
  lemma ApproximationBounds(y: real, n: int, t: int, w: int, r: int)
    requires -1.0 < 2.0 * (y - n as real) < 1.0 && 0 <= r < 2 * t && 2 * n + t == w + r
    ensures r > 0 || y >= n as real ==> w as real <= 2.0 * y + t as real < (w + 2 * t) as real
    ensures r == 0 && y < n as real ==> (w - 2 * t) as real <= 2.0 * y + t as real < w as real
  {
  }

  lemma RoundApproximation(n: int, t: int, a: real, y: real, m: int, r: int)
    requires t > 0 && a >= 0.0 && y == a * t as real && -1.0 < 2.0 * (y - n as real) < 1.0
    requires 0 <= r < 2 * t && 2 * n + t == m * (2 * t) + r
    ensures RoundHalfUp(a) == if r == 0 && y < n as real then m - 1 else m
  {
    var w := m * (2 * t);
    ApproximationBounds(y, n, t, w, r);
    if r == 0 && y < n as real {
      assert w - 2 * t == (m - 1) * (2 * t);
      RoundedBetween(a, y, m - 1, t, w - 2 * t);
    } else {
      RoundedBetween(a, y, m, t, w);
    }
  }

  /** Rounding an approximation of the fraction n/t that is off by less than 1/(2t). */
  lemma RoundNear(n: int, t: int, share: real, a: real)
    requires t > 0 && share * t as real == n as real && Near(a, share, t as real)
    ensures NearlyRounded(n, t, share, a)
  {
    var m, r := TieParts(n, t);
    Differences(a, share, t as real);
    RoundApproximation(n, t, share, n as real, m, r);
    RoundApproximation(n, t, a, a * t as real, m, r);
  }

  lemma ShareTimesTotal(part: int, orderTotal: int, planned: int)
    requires orderTotal > 0
    ensures Share(part, orderTotal, planned) * orderTotal as real == (part * planned) as real
  {
    var q := part as real / orderTotal as real;
    CancelFactor(part as real, orderTotal as real);
    assert q * orderTotal as real == part as real;
    assert Share(part, orderTotal, planned) * orderTotal as real == q * orderTotal as real * planned as real;
  }

  lemma AllocationIsNear(items: seq<LineItem>, orderTotal: int, planned: int, ids: seq<string>, dec: real -> real)
    requires Rounds(dec, Decimal28) && Priced(items, orderTotal) && orderTotal > 0 && planned > 0
    requires DigitsSuffice(|items|, orderTotal as real, planned as real)
    ensures var part := SumTotals(items, ids);
            NearlyRounded(part * planned, orderTotal, Share(part, orderTotal, planned),
                          DecimalShares(items, ids, orderTotal, planned, dec))
  {
    var part := SumTotals(items, ids);
    DecimalSharesAreClose(items, ids, orderTotal, planned, dec);
    ShareTimesTotal(part, orderTotal, planned);
    RoundNear(part * planned, orderTotal, Share(part, orderTotal, planned),
              DecimalShares(items, ids, orderTotal, planned, dec));
  }

  /** The decimal refund is the half-up rounding of the exact share, except where the share lies halfway
      between two minor units and the digits fall below it; there it is one minor unit less. */
  lemma DecimalRefundExactlyWhen(items: seq<LineItem>, orderTotal: int, planned: int, ids: seq<string>)
    requires Priced(items, orderTotal) && orderTotal > 0 && planned >= 0 && Precise(items, orderTotal, planned)
    ensures var part, share := SumTotals(items, ids), Share(SumTotals(items, ids), orderTotal, planned);
            DecimalRefundCents(items, orderTotal, planned, ids, Dec) == RefundCents(items, orderTotal, planned, ids)
            <==> (Allocates(items, orderTotal, planned, ids) && IsTie(part * planned, orderTotal)
                  ==> DecimalShares(items, ids, orderTotal, planned, Dec) >= share)
    ensures DecimalRefundCents(items, orderTotal, planned, ids, Dec) == RefundCents(items, orderTotal, planned, ids)
            || DecimalRefundCents(items, orderTotal, planned, ids, Dec)
               == RefundCents(items, orderTotal, planned, ids) - 1
  {
    if Allocates(items, orderTotal, planned, ids) {
      DecRounds();
      PreciseSuffices(items, orderTotal, planned);
      AllocationIsNear(items, orderTotal, planned, ids, Dec);
      RefundIsRoundedShare(items, orderTotal, planned, ids);
      RefundMonotone(items, orderTotal, planned, ids, ids);
    }
  }

  lemma {:induction false} AccumulatedIsNotNegative(terms: seq<real>, dec: real -> real)
    requires Rounds(dec, Decimal28) && forall t :: t in terms ==> t >= 0.0
    ensures Accumulate(terms, dec) >= 0.0
  {
    if terms != [] {
      var front, last := terms[..|terms| - 1], terms[|terms| - 1];
      assert last in terms && forall t :: t in front ==> t in terms;
      AccumulatedIsNotNegative(front, dec);
    }
  }

  lemma {:induction false} TermsAreNotNegative(items: seq<LineItem>, ids: seq<string>, orderTotal: int, planned: int,
                                               dec: real -> real)
    requires Rounds(dec, Decimal28) && orderTotal > 0 && planned >= 0
    requires forall i :: 0 <= i < |items| ==> items[i].totalCents >= 0
    ensures forall t :: t in ShareTerms(items, ids, orderTotal, planned, dec) ==> t >= 0.0
  {
    if items != [] {
      TermsAreNotNegative(items[..|items| - 1], ids, orderTotal, planned, dec);
      TermIsNear(items[|items| - 1].totalCents, orderTotal, planned, dec);
      NearIsNotNegative(ShareTerm(items[|items| - 1].totalCents, orderTotal, planned, dec),
                        Share(items[|items| - 1].totalCents, orderTotal, planned));
    }
  }

  lemma NearIsNotNegative(t: real, x: real)
    requires NearTerm(t, x, Decimal28)
    ensures t >= 0.0
  {
  }

  /** With any number of digits the refund lies between nothing and the planned amount. */
  lemma DecimalRefundInRange(items: seq<LineItem>, orderTotal: int, planned: int, ids: seq<string>)
    requires Priced(items, orderTotal) && orderTotal > 0 && planned >= 0
    ensures 0 <= DecimalRefundCents(items, orderTotal, planned, ids, Dec) <= planned
  {
    RefundMonotone(items, orderTotal, planned, ids, ids);
    if Allocates(items, orderTotal, planned, ids) {
      DecRounds();
      TermsAreNotNegative(items, ids, orderTotal, planned, Dec);
      AccumulatedIsNotNegative(ShareTerms(items, ids, orderTotal, planned, Dec), Dec);
      RoundHalfUpMonotone(0.0, DecimalShares(items, ids, orderTotal, planned, Dec));
      RoundHalfUpOfInt(0);
    }
  }

  lemma ExactRefundIsNearest(items: seq<LineItem>, orderTotal: int, planned: int, ids: seq<string>)
    requires Priced(items, orderTotal) && orderTotal > 0 && planned >= 0
    ensures var part := SumTotals(items, ids);
            NearlyRounded(part * planned, orderTotal, Share(part, orderTotal, planned),
                          Share(part, orderTotal, planned))
  {
    RefundIsRoundedShare(items, orderTotal, planned, ids);
    ShareIsNearlyRounded(SumTotals(items, ids), orderTotal, planned, Share(SumTotals(items, ids), orderTotal, planned));
  }

  lemma ShareIsNearlyRounded(part: int, orderTotal: int, planned: int, share: real)
    requires orderTotal > 0 && share == Share(part, orderTotal, planned) && share >= 0.0
    ensures NearlyRounded(part * planned, orderTotal, share, share)
  {
    ShareTimesTotal(part, orderTotal, planned);
    NearItself(share, orderTotal as real);
    RoundNear(part * planned, orderTotal, share, share);
  }

  lemma NearItself(share: real, t: real)
    requires share >= 0.0
    ensures Near(share, share, t)
  {
  }

  /** In every branch the refund is an integer nearest to the exact share: within half a minor unit. */
  lemma DecimalRefundIsNearest(items: seq<LineItem>, orderTotal: int, planned: int, ids: seq<string>)
    requires Priced(items, orderTotal) && orderTotal > 0 && planned >= 0 && Precise(items, orderTotal, planned)
    ensures IsNearest(DecimalRefundCents(items, orderTotal, planned, ids, Dec), SumTotals(items, ids) * planned,
                      orderTotal)
  {
    RefundIsRoundedShare(items, orderTotal, planned, ids);
    if Allocates(items, orderTotal, planned, ids) {
      DecRounds();
      PreciseSuffices(items, orderTotal, planned);
      AllocationIsNear(items, orderTotal, planned, ids, Dec);
      RefundMonotone(items, orderTotal, planned, ids, ids);
    } else {
      ExactRefundIsNearest(items, orderTotal, planned, ids);
    }
  }

  // ----- What a refund depends on -----

  lemma {:induction false} SharesAreKept(items: seq<LineItem>, ids: seq<string>, orderTotal: int, planned: int)
    requires orderTotal > 0 && planned >= 0 && forall i :: 0 <= i < |items| ==> items[i].totalCents >= 0
    ensures var a := DecimalShares(items, ids, orderTotal, planned, Dec); a >= 0.0 && Dec(a) == a
  {
    var terms := ShareTerms(items, ids, orderTotal, planned, Dec);
    DecRounds();
    TermsAreNotNegative(items, ids, orderTotal, planned, Dec);
    AccumulatedIsNotNegative(terms, Dec);
    if terms != [] {
      RoundIsKept(Accumulate(terms[..|terms| - 1], Dec) + terms[|terms| - 1], Decimal28);
    }
  }

  lemma TermIsNotNegative(total: int, orderTotal: int, planned: int)
    requires total >= 0 && orderTotal > 0 && planned >= 0
    ensures ShareTerm(total, orderTotal, planned, Dec) >= 0.0
  {
    DecRounds();
    TermIsNear(total, orderTotal, planned, Dec);
    NearIsNotNegative(ShareTerm(total, orderTotal, planned, Dec), Share(total, orderTotal, planned));
  }

  /** Rounded sums keep the order: one more term never makes the sum less. */
  lemma OneMoreTerm(small: real, large: real, term: real)
    requires 0.0 <= small <= large && term >= 0.0 && Dec(large) == large
    ensures Dec(small + term) <= Dec(large + term) && small <= Dec(large + term)
  {
    RoundMonotone(small + term, large + term, Decimal28);
    RoundMonotone(large, large + term, Decimal28);
  }

  lemma {:induction false} DecimalSharesMonotone(items: seq<LineItem>, orderTotal: int, planned: int,
                                                 ids: seq<string>, ids': seq<string>)
    requires orderTotal > 0 && planned >= 0 && forall i :: 0 <= i < |items| ==> items[i].totalCents >= 0
    requires forall i :: 0 <= i < |items| && items[i].id in ids ==> items[i].id in ids'
    ensures DecimalShares(items, ids, orderTotal, planned, Dec) <= DecimalShares(items, ids', orderTotal, planned, Dec)
  {
    if items != [] {
      var n := |items| - 1;
      DecimalSharesMonotone(items[..n], orderTotal, planned, ids, ids');
      SharesAreKept(items[..n], ids, orderTotal, planned);
      SharesAreKept(items[..n], ids', orderTotal, planned);
      TermIsNotNegative(items[n].totalCents, orderTotal, planned);
      assert items[..n + 1] == items;
      NextShare(items, ids, orderTotal, planned, Dec, n);
      NextShare(items, ids', orderTotal, planned, Dec, n);
      OneMoreTerm(DecimalShares(items[..n], ids, orderTotal, planned, Dec),
                  DecimalShares(items[..n], ids', orderTotal, planned, Dec),
                  ShareTerm(items[n].totalCents, orderTotal, planned, Dec));
    }
  }

  lemma OddIsNotEven(n: int, q: int, t: int)
    requires t > 0
    ensures 2 * (n * t) + t != 2 * t * q
  {
    var d := q - n;
    assert 2 * t * q - 2 * (n * t) == 2 * (d * t);
    assert d >= 1 ==> (d - 1) * t >= 0;
    assert d <= 0 ==> -d * t >= 0;
  }

  lemma WholeIsNoTie(n: int, t: int)
    requires t > 0
    ensures !IsTie(n * t, t)
  {
    if IsTie(n * t, t) {
      var q := (2 * (n * t) + t) / (2 * t);
      assert 2 * (n * t) + t == 2 * t * q;
      OddIsNotEven(n, q, t);
    }
  }

  /** Requested item by item, in any way, the whole order is refunded as planned. */
  lemma WholeOrderIsPlanned(items: seq<LineItem>, orderTotal: int, planned: int, ids: seq<string>)
    requires Priced(items, orderTotal) && orderTotal > 0 && planned >= 0 && Precise(items, orderTotal, planned)
    requires ItemIds(items) <= (set id | id in ids)
    ensures DecimalRefundCents(items, orderTotal, planned, ids, Dec) == planned
  {
    SumTotalsBounds(items, ids);
    ShareOfWhole(orderTotal, planned);
    RoundHalfUpOfInt(planned);
    RefundIsRoundedShare(items, orderTotal, planned, ids);
    WholeIsNoTie(planned, orderTotal);
    DecimalRefundExactlyWhen(items, orderTotal, planned, ids);
  }

  /** Asking for more of the order's items never refunds less. */
  lemma DecimalRefundMonotone(items: seq<LineItem>, orderTotal: int, planned: int, ids: seq<string>, ids': seq<string>)
    requires Priced(items, orderTotal) && orderTotal > 0 && planned >= 0 && Precise(items, orderTotal, planned)
    requires forall id :: id in ItemIds(items) && id in ids ==> id in ids'
    ensures DecimalRefundCents(items, orderTotal, planned, ids, Dec)
            <= DecimalRefundCents(items, orderTotal, planned, ids', Dec)
  {
    if Allocates(items, orderTotal, planned, ids) && Allocates(items, orderTotal, planned, ids') {
      forall i | 0 <= i < |items| && items[i].id in ids ensures items[i].id in ids' {
        assert items[i].id in ItemIds(items);
      }
      DecimalSharesMonotone(items, orderTotal, planned, ids, ids');
      RoundHalfUpMonotone(DecimalShares(items, ids, orderTotal, planned, Dec),
                          DecimalShares(items, ids', orderTotal, planned, Dec));
    } else if Allocates(items, orderTotal, planned, ids') {
      forall id | id in ItemIds(items) ensures id in ids' {
        assert id in (set id | id in ids);
      }
      DecimalRefundInRange(items, orderTotal, planned, ids);
      WholeOrderIsPlanned(items, orderTotal, planned, ids');
    } else {
      RefundMonotone(items, orderTotal, planned, ids, ids');
      DecimalRefundInRange(items, orderTotal, planned, ids);
    }
  }

  /** Only membership in the order matters: duplicates, foreign ids and the order of the request do not. */
  lemma DecimalRefundDependsOnRequestedItemsOnly(items: seq<LineItem>, orderTotal: int, planned: int,
                                                 ids: seq<string>, ids': seq<string>)
    requires Priced(items, orderTotal) && orderTotal > 0 && planned >= 0 && Precise(items, orderTotal, planned)
    requires forall id :: id in ItemIds(items) ==> (id in ids <==> id in ids')
    ensures DecimalRefundCents(items, orderTotal, planned, ids, Dec)
            == DecimalRefundCents(items, orderTotal, planned, ids', Dec)
  {
    DecimalRefundMonotone(items, orderTotal, planned, ids, ids');
    DecimalRefundMonotone(items, orderTotal, planned, ids', ids);
  }

  /** The final cap is dead code when the line totals add up: the rounded sum never exceeds the planned amount. */
  lemma DecimalCapNeverBinds(items: seq<LineItem>, orderTotal: int, planned: int, ids: seq<string>)
    requires Priced(items, orderTotal) && orderTotal > 0 && planned > 0 && Precise(items, orderTotal, planned)
    ensures RoundHalfUp(DecimalShares(items, ids, orderTotal, planned, Dec)) <= planned
  {
    DecRounds();
    PreciseSuffices(items, orderTotal, planned);
    AllocationIsNear(items, orderTotal, planned, ids, Dec);
    RefundIsRoundedShare(items, orderTotal, planned, ids);
    RefundMonotone(items, orderTotal, planned, ids, ids);
  }

  /** Without assuming that line totals add up, "never exceeds amount_planned" (the promise of the
      function's documentation) fails in one branch only, and there exactly when the requested
      totals exceed the order total. */
  lemma DecimalNeverExceedsPlannedExactlyWhen(items: seq<LineItem>, orderTotal: int, planned: int, ids: seq<string>)
    requires planned >= 0
    ensures DecimalRefundCents(items, orderTotal, planned, ids, Dec) <= planned
            <==> (AddsTotalsAsIs(items, orderTotal, planned, ids) ==> SumTotals(items, ids) <= orderTotal)
  {
    NeverExceedsPlannedExactlyWhen(items, orderTotal, planned, ids);
  }

  // ----- Splitting an order -----

  function SumOfDecimalRefunds(items: seq<LineItem>, orderTotal: int, planned: int, parts: seq<seq<string>>): int {
    if parts == [] then 0
    else
      DecimalRefundCents(items, orderTotal, planned, parts[0], Dec)
      + SumOfDecimalRefunds(items, orderTotal, planned, parts[1..])
  }

  lemma {:induction false} DecimalErrorPerPart(items: seq<LineItem>, orderTotal: int, planned: int,
                                               parts: seq<seq<string>>)
    requires Priced(items, orderTotal) && orderTotal > 0 && planned >= 0 && Precise(items, orderTotal, planned)
    ensures Within(SumOfDecimalRefunds(items, orderTotal, planned, parts), SumOfTotals(items, parts), |parts|,
                   orderTotal, planned)
    ensures planned == orderTotal
            ==> SumOfDecimalRefunds(items, orderTotal, planned, parts)
                == SumOfRefunds(items, orderTotal, planned, parts)
  {
    if parts != [] {
      DecimalErrorPerPart(items, orderTotal, planned, parts[1..]);
      DecimalRefundIsNearest(items, orderTotal, planned, parts[0]);
      AddErrors(DecimalRefundCents(items, orderTotal, planned, parts[0], Dec), SumTotals(items, parts[0]),
                SumOfDecimalRefunds(items, orderTotal, planned, parts[1..]), SumOfTotals(items, parts[1..]),
                |parts[1..]|, orderTotal, planned);
    }
  }

  /** `sum` is within k/2 of the fraction total * planned / t. */
  predicate Within(sum: int, total: int, k: int, t: int, planned: int) {
    -(k * t) <= 2 * (sum * t - total * planned) <= k * t
  }

  lemma AddErrors(d: int, p: int, sum: int, total: int, k: int, t: int, planned: int)
    requires IsNearest(d, p * planned, t) && Within(sum, total, k, t, planned)
    ensures Within(d + sum, p + total, k + 1, t, planned)
  {
    SumsOfProducts(d, sum, t);
    SumsOfProducts(p, total, planned);
    SumsOfProducts(1, k, t);
  }

  lemma SumsOfProducts(x: int, y: int, p: int)
    ensures (x + y) * p == x * p + y * p
  {
  }

  /** The bound for partial refunds holds of the code's own arithmetic: k disjoint partial refunds that
      cover an order add up to the planned amount exactly when it equals the order total, and otherwise to
      within k/2 minor units of it. */
  lemma DecimalSplitRefundsAddUp(items: seq<LineItem>, orderTotal: int, planned: int, parts: seq<seq<string>>)
    requires Priced(items, orderTotal) && orderTotal > 0 && planned >= 0 && Precise(items, orderTotal, planned)
    requires Splits(items, parts)
    ensures planned == orderTotal ==> SumOfDecimalRefunds(items, orderTotal, planned, parts) == planned
    ensures -|parts| <= 2 * (SumOfDecimalRefunds(items, orderTotal, planned, parts) - planned) <= |parts|
  {
    TotalsCountHits(items, parts);
    SplitsAreExhaustive(items, parts);
    DecimalErrorPerPart(items, orderTotal, planned, parts);
    SplitRefundsAddUp(items, orderTotal, planned, parts);
    CancelTotal(SumOfDecimalRefunds(items, orderTotal, planned, parts), planned, |parts|, orderTotal);
  }

  lemma CancelTotal(sum: int, planned: int, k: int, t: int)
    requires t > 0 && Within(sum, t, k, t, planned)
    ensures -k <= 2 * (sum - planned) <= k
  {
    var d := 2 * (sum - planned);
    assert d * t == 2 * (sum * t - t * planned);
    assert d > k ==> (d - k) * t > 0;
    assert d < -k ==> (-k - d) * t > 0;
  }

  // ----- The digits do cost a minor unit -----

  lemma {:induction false} Pow10Adds(m: nat, n: nat)
    ensures Pow10(m + n) == Pow10(m) * Pow10(n)
  {
    if m > 0 { Pow10Adds(m - 1, n); }
  }

  lemma Pow10Literals()
    ensures Pow10(27) == Low(Decimal28) && Pow10(28) == 10.0 * Low(Decimal28)
  {
    assert Pow10(3) == 10.0 * Pow10(2) && Pow10(2) == 10.0 * Pow10(1) && Pow10(1) == 10.0 * Pow10(0);
    Pow10Adds(3, 3);
    Pow10Adds(6, 3);
    Pow10Adds(9, 9);
    Pow10Adds(18, 9);
    assert Pow10(9) == 1_000_000_000.0;
    assert Pow10(28) == 10.0 * Pow10(27);
  }

  lemma FiveFourteenths()
    ensures Dec(5.0 / 14.0) == 0.3571428571428571428571428571
  {
    Pow10Literals();
    var x := 5.0 / 14.0 * 10_000_000_000_000_000_000_000_000_000.0;
    PointShifts(x, 28);
    assert HalfEven(x) == 3571428571428571428571428571;
    assert x / Pow10(28) == 5.0 / 14.0;
  }

  lemma TimesTwentyOne()
    ensures Dec(7.4999999999999999999999999991) == 7.499999999999999999999999999
  {
    Pow10Literals();
    var x := 7499999999999999999999999999.1;
    PointShifts(x, 27);
    assert HalfEven(x) == 7499999999999999999999999999;
    assert x / Pow10(27) == 7.4999999999999999999999999991;
  }

  const TIE_ITEMS := [LineItem("a", 5), LineItem("b", 9)]

  lemma TieSums()
    ensures SumTotals(TIE_ITEMS, ["a"]) == 5 && Priced(TIE_ITEMS, 14) && Allocates(TIE_ITEMS, 14, 21, ["a"])
  {
    var rest := TIE_ITEMS[1..];
    assert rest == [LineItem("b", 9)] && rest[1..] == [];
    assert SumTotals(rest, ["a"]) == 0;
    assert AllTotals(rest) == 9;
    assert TIE_ITEMS[1].id in ItemIds(TIE_ITEMS);
    assert "b" !in (set id | id in ["a"]);
  }

  lemma TieShares()
    ensures DecimalShares(TIE_ITEMS, ["a"], 14, 21, Dec) == 7.499999999999999999999999999
  {
    FiveFourteenths();
    TimesTwentyOne();
    var term := ShareTerm(5, 14, 21, Dec);
    assert term == 7.499999999999999999999999999;
    var front := TIE_ITEMS[..1];
    assert front == [LineItem("a", 5)] && front[..0] == [];
    assert ShareTerms(front, ["a"], 14, 21, Dec) == [term];
    assert ShareTerms(TIE_ITEMS, ["a"], 14, 21, Dec) == [term];
    assert [term][..0] == [];
    RoundIsKept(7.4999999999999999999999999991, Decimal28);
    assert Accumulate([term], Dec) == Dec(0.0 + term);
  }

  /** An order where they do: of line totals 5 and 9, with 21 planned, the first item's share is exactly 7.5.
      Rounded half up that is 8; the code refunds 7. */
  lemma DecimalTieExample()
    ensures Priced(TIE_ITEMS, 14) && Share(SumTotals(TIE_ITEMS, ["a"]), 14, 21) == 7.5
    ensures RefundCents(TIE_ITEMS, 14, 21, ["a"]) == 8 && DecimalRefundCents(TIE_ITEMS, 14, 21, ["a"], Dec) == 7
  {
    TieSums();
    TieShares();
    RefundIsRoundedShare(TIE_ITEMS, 14, 21, ["a"]);
  }
}
