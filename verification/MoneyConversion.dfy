/** Conversions between minor units and localized prices, and what is sent to Stripe. */
module MoneyConversion {
  import opened Decimals
  import opened RefundArithmetic

  /** convert_ct_cent_amount_to_localized_price */
  function CentsToPrice(cents: int, fractionDigits: nat): real {
    ScaleB(cents as real, -(fractionDigits as int))
  }

  /** convert_localized_price_to_ct_cent_amount; `exponent` says how far `amount` is scaled already */
  function PriceToCents(amount: real, fractionDigits: nat, exponent: int): int {
    Truncate(ScaleB(amount, fractionDigits - exponent))
  }

  /** The two conversions undo each other, for every currency exponent and any sign. */
  lemma CentsToPriceAndBack(cents: int, fractionDigits: nat)
    ensures PriceToCents(CentsToPrice(cents, fractionDigits), fractionDigits, 0) == cents
  {
    ScaleBInverse(cents as real, -(fractionDigits as int));
    RoundHalfUpOfInt(cents);
  }

  /** In the other direction less than one minor unit is lost, always towards zero. */
  lemma PriceToCentsAndBack(amount: real, fractionDigits: nat, cents: int)
    requires cents == PriceToCents(amount, fractionDigits, 0)
    ensures amount >= 0.0 ==> CentsToPrice(cents, fractionDigits) <= amount < CentsToPrice(cents + 1, fractionDigits)
    ensures amount < 0.0 ==> CentsToPrice(cents - 1, fractionDigits) < amount <= CentsToPrice(cents, fractionDigits)
  {
    PriceToCentsTruncates(amount, fractionDigits);
    TruncatedPrice(amount, fractionDigits, Pow10(fractionDigits), cents);
  }

  lemma TruncatedPrice(amount: real, fractionDigits: nat, p: real, cents: int)
    requires p >= 1.0 && p == Pow10(fractionDigits) && cents == Truncate(amount * p)
    ensures amount >= 0.0 ==> CentsToPrice(cents, fractionDigits) <= amount < CentsToPrice(cents + 1, fractionDigits)
    ensures amount < 0.0 ==> CentsToPrice(cents - 1, fractionDigits) < amount <= CentsToPrice(cents, fractionDigits)
  {
    PriceIsQuotient(cents - 1, fractionDigits);
    PriceIsQuotient(cents, fractionDigits);
    PriceIsQuotient(cents + 1, fractionDigits);
    TruncateAndBack(amount, p, cents);
  }

  lemma PriceIsQuotient(cents: int, fractionDigits: nat)
    ensures CentsToPrice(cents, fractionDigits) == cents as real / Pow10(fractionDigits)
  {
  }

  lemma TruncateAndBack(x: real, p: real, n: int)
    requires p >= 1.0 && n == Truncate(x * p)
    ensures x >= 0.0 ==> n as real / p <= x < (n + 1) as real / p
    ensures x < 0.0 ==> (n - 1) as real / p < x <= n as real / p
  {
    var y := x * p;
    TruncateBounds(y);
    ProductSign(x, p);
    CompareQuotient(x, (n - 1) as real, p);
    CompareQuotient(x, n as real, p);
    CompareQuotient(x, (n + 1) as real, p);
  }

  lemma TruncateBounds(x: real)
    ensures x >= 0.0 ==> Truncate(x) as real <= x && x < (Truncate(x) + 1) as real
    ensures x < 0.0 ==> (Truncate(x) - 1) as real < x && x <= Truncate(x) as real
  {
  }

  lemma PriceToCentsTruncates(amount: real, fractionDigits: nat)
    ensures PriceToCents(amount, fractionDigits, 0) == Truncate(amount * Pow10(fractionDigits))
  {
    var exponent := fractionDigits - 0;
    assert exponent == fractionDigits;
    assert ScaleB(amount, exponent) == amount * Pow10(fractionDigits);
  }

  lemma ProductSign(x: real, p: real)
    requires p > 0.0
    ensures x * p >= 0.0 <==> x >= 0.0
  {
  }

  lemma CompareQuotient(x: real, y: real, p: real)
    requires p > 0.0
    ensures x < y / p <==> x * p < y
    ensures x > y / p <==> x * p > y
  {
    CancelFactor(y, p);
    var q := y / p;
    assert q * p == y;
    assert x < q ==> (q - x) * p > 0.0;
    assert x > q ==> (x - q) * p > 0.0;
  }

  /** refund_payment_intent always multiplies by a hundred. */
  function StripeCents(amount: real): int {
    Truncate(amount * 100.0)
  }

  /** The amount sent to Stripe is the half-up-rounded refund in minor units exactly for currencies
      with two fraction digits (or a refund of nothing): other currencies are off by a power of ten. */
  lemma StripeCentsExactlyWhen(cents: real, fractionDigits: nat)
    ensures StripeCents(QuantizedAmount(cents, fractionDigits)) == RoundHalfUp(cents)
            <==> fractionDigits == 2 || RoundHalfUp(cents) == 0
  {
    var m := RoundHalfUp(cents);
    var p := Pow10(fractionDigits);
    QuantizedIsRoundedCents(cents, fractionDigits);
    var sent := m as real / p * 100.0;
    if fractionDigits == 0 {
      assert p == 1.0 && sent == (m * 100) as real;
      RoundHalfUpOfInt(m * 100);
    } else if fractionDigits == 1 {
      assert Pow10(1) == 10.0 * Pow10(0);
      assert sent == (m * 10) as real;
      RoundHalfUpOfInt(m * 10);
    } else if fractionDigits == 2 {
      assert Pow10(2) == 10.0 * Pow10(1) && Pow10(1) == 10.0 * Pow10(0);
      assert sent == m as real;
      RoundHalfUpOfInt(m);
    } else {
      Pow10AtLeastThousand(fractionDigits);
      SmallQuotient(m, p);
    }
  }

  /** Five hundred yen, a currency without fraction digits, are sent as fifty thousand. */
  lemma StripeCentsOfYen()
    ensures StripeCents(QuantizedAmount(500.0, 0)) == 50_000 && RoundHalfUp(500.0) == 500
  {
    QuantizedIsRoundedCents(500.0, 0);
    RoundHalfUpOfInt(500);
    RoundHalfUpOfInt(50_000);
    assert Pow10(0) == 1.0;
  }

  lemma Pow10AtLeastThousand(n: nat)
    requires n >= 3
    ensures Pow10(n) >= 1000.0
  {
    assert Pow10(3) == 10.0 * Pow10(2) && Pow10(2) == 10.0 * Pow10(1) && Pow10(1) == 10.0 * Pow10(0);
    if n > 3 { Pow10AtLeastThousand(n - 1); }
  }

  lemma SmallQuotient(m: int, p: real)
    requires p >= 1000.0
    ensures Truncate(m as real / p * 100.0) == m <==> m == 0
  {
    var q := m as real / p;
    CancelFactor(m as real, p);
    assert q * p == m as real;
    if m > 0 {
      assert q > 0.0;
      MultiplyMonotone(1000.0, p, q);
      assert q * 1000.0 <= m as real;
    } else if m < 0 {
      assert q < 0.0;
      var r := -q;
      MultiplyMonotone(1000.0, p, r);
      assert p * r == -(m as real);
      assert 1000.0 * r <= -(m as real);
    }
  }
}
