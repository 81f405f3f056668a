/**
 What binary floating point does to the check for a full refund and to the amounts PayPal reports: where
 it gives the answer exact cents would give, and where it does not.
 */
module FloatAmounts {
  import opened Wrappers
  import opened Decimals
  import opened SignificantDigits
  import opened Payments

  // ----- The check for a full refund -----

  lemma FloatRounds()
    ensures Rounds(Float, Double)
  {
    forall x: real | x >= 0.0 ensures Close(Float(x), x, Double) && Float(x) >= 0.0 {
      RoundIsClose(x, Double);
    }
  }

  /** The amounts of one kind, in order. */
  function AmountsOf(ts: seq<Transaction>, kind: Kind): seq<(int, nat)> {
    if ts == [] then []
    else
      var last := ts[|ts| - 1];
      AmountsOf(ts[..|ts| - 1], kind) + if last.kind == kind then [(last.cents, last.fractionDigits)] else []
  }

  function DollarsOf(amounts: seq<(int, nat)>, round: real -> real): seq<real> {
    if amounts == [] then []
    else
      var last := amounts[|amounts| - 1];
      DollarsOf(amounts[..|amounts| - 1], round) + [round(last.0 as real / Pow10(last.1))]
  }

  function RoundedDollars(ts: seq<Transaction>, kind: Kind, round: real -> real): seq<real> {
    if ts == [] then []
    else
      var last := ts[|ts| - 1];
      RoundedDollars(ts[..|ts| - 1], kind, round) + if last.kind == kind then [Dollars(last, round)] else []
  }

  lemma AccumulateAppend(terms: seq<real>, t: real, round: real -> real)
    ensures Accumulate(terms + [t], round) == round(Accumulate(terms, round) + t)
  {
    assert (terms + [t])[..|terms|] == terms;
  }

  lemma LastDollars(ts: seq<Transaction>, kind: Kind, round: real -> real)
    requires ts != []
    ensures var front, last := ts[..|ts| - 1], ts[|ts| - 1];
            if last.kind == kind
            then RoundedDollars(ts, kind, round) == RoundedDollars(front, kind, round) + [Dollars(last, round)]
                 && DollarSum(ts, kind, round) == round(DollarSum(front, kind, round) + Dollars(last, round))
            else RoundedDollars(ts, kind, round) == RoundedDollars(front, kind, round)
                 && DollarSum(ts, kind, round) == DollarSum(front, kind, round)
  {
  }

  lemma {:induction false} DollarSumAccumulates(ts: seq<Transaction>, kind: Kind, round: real -> real)
    ensures DollarSum(ts, kind, round) == Accumulate(RoundedDollars(ts, kind, round), round)
  {
    if ts != [] {
      var front := ts[..|ts| - 1];
      DollarSumAccumulates(front, kind, round);
      LastDollars(ts, kind, round);
      AccumulateAppend(RoundedDollars(front, kind, round), Dollars(ts[|ts| - 1], round), round);
    }
  }

  lemma DollarsOfAppend(amounts: seq<(int, nat)>, a: (int, nat), round: real -> real)
    ensures DollarsOf(amounts + [a], round) == DollarsOf(amounts, round) + [round(a.0 as real / Pow10(a.1))]
  {
    assert (amounts + [a])[..|amounts|] == amounts;
  }

  lemma {:induction false} DollarsOfAmounts(ts: seq<Transaction>, kind: Kind, round: real -> real)
    ensures RoundedDollars(ts, kind, round) == DollarsOf(AmountsOf(ts, kind), round)
  {
    if ts != [] {
      var front, last := ts[..|ts| - 1], ts[|ts| - 1];
      DollarsOfAmounts(front, kind, round);
      if last.kind == kind {
        DollarsOfAppend(AmountsOf(front, kind), (last.cents, last.fractionDigits), round);
      } else {
        assert AmountsOf(ts, kind) == AmountsOf(front, kind);
        assert RoundedDollars(ts, kind, round) == RoundedDollars(front, kind, round);
      }
    }
  }

  /** A payment whose refunds are its charges, amount by amount, counts as fully refunded; in particular one
      charge that is refunded as a whole. */
  lemma SameAmountsAreFull(ts: seq<Transaction>)
    requires AmountsOf(ts, Refund) == AmountsOf(ts, Charge)
    ensures FullyRefunded(ts)
  {
    DollarSumAccumulates(ts, Refund, Float);
    DollarSumAccumulates(ts, Charge, Float);
    DollarsOfAmounts(ts, Refund, Float);
    DollarsOfAmounts(ts, Charge, Float);
  }

  // ----- No payment counts as fully refunded by mistake -----

  /** Amounts of one currency that are not negative. */
  predicate Plain(ts: seq<Transaction>, fractionDigits: nat) {
    forall i :: 0 <= i < |ts| ==> ts[i].cents >= 0 && ts[i].fractionDigits == fractionDigits
  }

  function ExactDollars(ts: seq<Transaction>, kind: Kind, scale: real): seq<real>
    requires scale > 0.0
  {
    if ts == [] then []
    else
      var last := ts[|ts| - 1];
      ExactDollars(ts[..|ts| - 1], kind, scale) + if last.kind == kind then [last.cents as real / scale] else []
  }

  lemma DivideAdds(x: int, y: int, scale: real)
    requires scale > 0.0
    ensures x as real / scale + y as real / scale == (x + y) as real / scale
  {
    CancelFactor(x as real, scale);
    CancelFactor(y as real, scale);
    CancelFactor((x + y) as real, scale);
    var q := x as real / scale + y as real / scale;
    assert q * scale == (x + y) as real;
    CancelFactor(q, scale);
  }

  lemma {:induction false} ExactDollarsAddUp(ts: seq<Transaction>, kind: Kind, scale: real)
    requires scale > 0.0
    ensures Sum(ExactDollars(ts, kind, scale)) == SumOf(ts, kind) as real / scale
  {
    CancelFactor(0.0, scale);
    if ts != [] {
      var front, last := ts[..|ts| - 1], ts[|ts| - 1];
      ExactDollarsAddUp(front, kind, scale);
      var exact := ExactDollars(front, kind, scale);
      if last.kind == kind {
        assert (exact + [last.cents as real / scale])[..|exact|] == exact;
        DivideAdds(SumOf(front, kind), last.cents, scale);
      } else {
        assert ExactDollars(ts, kind, scale) == exact;
      }
    }
  }

  lemma CloseIsNear(t: real, x: real)
    requires Close(t, x, Double) && x >= 0.0
    ensures NearTerm(t, x, Double)
  {
  }

  lemma {:induction false} DollarsAreNear(ts: seq<Transaction>, kind: Kind, round: real -> real, fractionDigits: nat)
    requires Rounds(round, Double) && Plain(ts, fractionDigits)
    ensures NearTerms(RoundedDollars(ts, kind, round), ExactDollars(ts, kind, Pow10(fractionDigits)), Double)
    ensures |RoundedDollars(ts, kind, round)| <= |ts|
  {
    if ts != [] {
      var last := ts[|ts| - 1];
      DollarsAreNear(ts[..|ts| - 1], kind, round, fractionDigits);
      Quotient(last.cents as real, Pow10(fractionDigits));
      CloseIsNear(Dollars(last, round), last.cents as real / Pow10(fractionDigits));
    }
  }

  /** The sum is off by less than half a minor unit. */
  predicate OffByLessThanHalf(sum: real, cents: int, scale: real) {
    -0.5 < sum * scale - cents as real < 0.5
  }

  lemma Distributed(x: real, y: real, p: real)
    ensures (x - y) * p == x * p - y * p
  {
  }

  lemma ErrorInCents(sum: real, cents: int, scale: real, budget: real)
    requires scale > 0.0 && WithinBudget(sum, cents as real / scale, budget, Double)
    requires SmallError(budget, scale, Double)
    ensures OffByLessThanHalf(sum, cents, scale)
  {
    ErrorTimes(sum, cents as real / scale, budget, scale, Double);
    CancelFactor(cents as real, scale);
    Distributed(sum, cents as real / scale, scale);
  }

  predicate DigitsSuffice(n: nat, total: real, scale: real) {
    Budget(n, total) <= total * Low(Double) && SmallError(Budget(n, total), scale, Double)
  }

  lemma DollarsWithinBudget(ts: seq<Transaction>, kind: Kind, round: real -> real, fractionDigits: nat, total: real)
    requires Rounds(round, Double) && Plain(ts, fractionDigits) && total >= 0.0
    requires Sum(ExactDollars(ts, kind, Pow10(fractionDigits))) <= total && Budget(|ts|, total) <= total * Low(Double)
    ensures WithinBudget(Accumulate(RoundedDollars(ts, kind, round), round),
                         Sum(ExactDollars(ts, kind, Pow10(fractionDigits))),
                         Budget(|ts|, total), Double)
  {
    var terms := RoundedDollars(ts, kind, round);
    DollarsAreNear(ts, kind, round, fractionDigits);
    BudgetGrows(|terms|, |ts|, total);
    AccumulateError(terms, ExactDollars(ts, kind, Pow10(fractionDigits)), total, round, Double);
    LargerBudget(Accumulate(terms, round), Sum(ExactDollars(ts, kind, Pow10(fractionDigits))),
                 Budget(|terms|, total), Budget(|ts|, total), Double);
  }

  lemma DollarSumWithinBudget(ts: seq<Transaction>, kind: Kind, round: real -> real, fractionDigits: nat, total: real)
    requires Rounds(round, Double) && Plain(ts, fractionDigits) && total >= 0.0
    requires SumOf(ts, kind) as real / Pow10(fractionDigits) <= total && Budget(|ts|, total) <= total * Low(Double)
    ensures WithinBudget(DollarSum(ts, kind, round), SumOf(ts, kind) as real / Pow10(fractionDigits),
                         Budget(|ts|, total), Double)
  {
    DollarSumAccumulates(ts, kind, round);
    ExactDollarsAddUp(ts, kind, Pow10(fractionDigits));
    DollarsWithinBudget(ts, kind, round, fractionDigits, total);
  }

  lemma DollarSumIsClose(ts: seq<Transaction>, kind: Kind, round: real -> real, fractionDigits: nat, total: real)
    requires Rounds(round, Double) && Plain(ts, fractionDigits) && total >= 0.0
    requires SumOf(ts, kind) as real / Pow10(fractionDigits) <= total
             && DigitsSuffice(|ts|, total, Pow10(fractionDigits))
    ensures OffByLessThanHalf(DollarSum(ts, kind, round), SumOf(ts, kind), Pow10(fractionDigits))
  {
    DollarSumWithinBudget(ts, kind, round, fractionDigits, total);
    ErrorInCents(DollarSum(ts, kind, round), SumOf(ts, kind), Pow10(fractionDigits), Budget(|ts|, total));
  }

  lemma SameSumSameCents(sum: real, x: int, y: int, scale: real)
    requires OffByLessThanHalf(sum, x, scale) && OffByLessThanHalf(sum, y, scale)
    ensures x == y
  {
  }

  /** Every amount that can be told apart: for instance a thousand transactions adding up to less than seven
      hundred thousand million cents. */
  predicate Tellable(n: nat, cents: int) {
    0 < cents && 6 * n * cents < 4_503_599_627_370_496
  }

  lemma TellableSuffices(n: nat, cents: int, scale: real)
    requires Tellable(n, cents) && scale >= 1.0
    ensures DigitsSuffice(n, cents as real / scale, scale) && cents as real / scale >= 0.0
  {
    var total := cents as real / scale;
    CancelFactor(cents as real, scale);
    Quotient(cents as real, scale);
    BudgetIsProduct(n, total);
    assert 6 * n * cents == 6 * (n * cents);
    TellableProducts(n, cents, scale, total);
  }

  lemma TellableProducts(n: nat, cents: int, scale: real, total: real)
    requires 6 * (n * cents) < 4_503_599_627_370_496 && cents > 0 && total * scale == cents as real && total >= 0.0
    ensures 6.0 * (n as real * total) <= total * Low(Double)
    ensures 6.0 * (n as real * total) * scale < Low(Double)
  {
    assert n <= n * cents;
    Product(6.0 * n as real, Low(Double), total);
    assert n as real * cents as real == (n * cents) as real;
    assert n as real * total * scale == n as real * (total * scale);
  }

  lemma SmallerQuotient(x: int, y: int, scale: real)
    requires x <= y && scale > 0.0
    ensures x as real / scale <= y as real / scale
  {
    CancelFactor(x as real, scale);
    CancelFactor(y as real, scale);
    Cancel(x as real / scale, y as real / scale, scale);
  }

  /** What the code takes for a full refund is one: its floats are equal only if the cents are, for all amounts
      that can be told apart. */
  lemma FullMeansFull(ts: seq<Transaction>, fractionDigits: nat, cents: int)
    requires Plain(ts, fractionDigits) && Tellable(|ts|, cents) && SumOf(ts, Charge) <= cents
             && SumOf(ts, Refund) <= cents
    requires FullyRefunded(ts)
    ensures SumOf(ts, Refund) == SumOf(ts, Charge)
  {
    var scale := Pow10(fractionDigits);
    var total := cents as real / scale;
    TellableSuffices(|ts|, cents, scale);
    SmallerQuotient(SumOf(ts, Charge), cents, scale);
    SmallerQuotient(SumOf(ts, Refund), cents, scale);
    FloatRounds();
    DollarSumIsClose(ts, Charge, Float, fractionDigits, total);
    DollarSumIsClose(ts, Refund, Float, fractionDigits, total);
    SameSumSameCents(DollarSum(ts, Charge, Float), SumOf(ts, Charge), SumOf(ts, Refund), scale);
  }

  // ----- Amounts whose floats are exact -----

  function Pow5(n: nat): (r: int)
    ensures r > 0
  {
    if n == 0 then 1 else 5 * Pow5(n - 1)
  }

  /** Amounts of one currency that floats hold exactly: multiples of 25 cents when there are two fraction digits,
      all amounts when there are none. */
  predicate HeldExactly(ts: seq<Transaction>, fractionDigits: nat) {
    Plain(ts, fractionDigits) && forall i :: 0 <= i < |ts| ==> ts[i].cents % Pow5(fractionDigits) == 0
  }

  lemma HalfOfQuotient(a: real, p: real)
    requires p > 0.0
    ensures 5.0 * a / (10.0 * p) == a / p / 2.0
  {
    var q := a / p / 2.0;
    CancelFactor(a, p);
    CancelFactor(q, 10.0 * p);
    assert a / p * p == a;
    assert q * (10.0 * p) == a / p * p * 5.0;
  }

  /** Dividing a multiple of 5^n by 10^n only moves the binary point. */
  lemma {:induction false} MovesPoint(j: int, n: nat)
    ensures (j * Pow5(n)) as real / Pow10(n) == DownBy(j as real, n, Double)
  {
    if n > 0 {
      MovesPoint(j, n - 1);
      var a := j * Pow5(n - 1);
      assert j * Pow5(n) == 5 * a;
      assert (5 * a) as real == 5.0 * a as real;
      HalfOfQuotient(a as real, Pow10(n - 1));
    }
  }

  lemma {:induction false} DownByAdds(x: real, y: real, n: nat)
    ensures DownBy(x, n, Double) + DownBy(y, n, Double) == DownBy(x + y, n, Double)
  {
    if n > 0 { DownByAdds(x, y, n - 1); }
  }

  lemma {:induction false} DownByInjective(x: real, y: real, n: nat)
    requires DownBy(x, n, Double) == DownBy(y, n, Double)
    ensures x == y
  {
    if n > 0 { DownByInjective(x, y, n - 1); }
  }

  lemma {:induction false} DownByZero(n: nat)
    ensures DownBy(0.0, n, Double) == 0.0
  {
    if n > 0 { DownByZero(n - 1); }
  }

  lemma MovedIntegerIsKept(j: int, n: nat)
    requires 0 <= j < 9_007_199_254_740_992
    ensures Float(DownBy(j as real, n, Double)) == DownBy(j as real, n, Double)
  {
    SmallIntegerIsKept(j, Double);
    RoundShiftsBy(j as real, n, Double);
  }

  lemma SmallFactor(j: int, f: int, bound: int)
    requires f > 0 && j * f < bound * f
    ensures j < bound
  {
    assert j >= bound ==> (j - bound) * f >= 0;
  }

  lemma SameFactor(j: int, k: int, f: int)
    requires f > 0 && j * f == k * f
    ensures j == k
  {
    assert (j - k) * f == 0;
  }

  lemma ExactDollar(t: Transaction) returns (j: int)
    requires t.cents >= 0 && t.cents % Pow5(t.fractionDigits) == 0
    requires t.cents < 9_007_199_254_740_992 * Pow5(t.fractionDigits)
    ensures j >= 0 && t.cents == j * Pow5(t.fractionDigits)
            && Dollars(t, Float) == DownBy(j as real, t.fractionDigits, Double)
  {
    var f := Pow5(t.fractionDigits);
    j := t.cents / f;
    assert t.cents == j * f;
    SmallFactor(j, f, 9_007_199_254_740_992);
    MovesPoint(j, t.fractionDigits);
    MovedIntegerIsKept(j, t.fractionDigits);
  }

  lemma ExactAddition(x: int, y: int, n: nat)
    requires 0 <= x && 0 <= y && (x + y) * Pow5(n) < 9_007_199_254_740_992 * Pow5(n)
    ensures Float(DownBy(x as real, n, Double) + DownBy(y as real, n, Double)) == DownBy((x + y) as real, n, Double)
  {
    SmallFactor(x + y, Pow5(n), 9_007_199_254_740_992);
    DownByAdds(x as real, y as real, n);
    MovedIntegerIsKept(x + y, n);
  }

  /** Every division and every addition is exact, so the sum is j units of a power of two. */
  lemma {:induction false} ExactSum(ts: seq<Transaction>, kind: Kind, fractionDigits: nat) returns (j: int)
    requires HeldExactly(ts, fractionDigits)
    requires SumOf(ts, kind) < 9_007_199_254_740_992 * Pow5(fractionDigits)
    ensures j >= 0 && SumOf(ts, kind) == j * Pow5(fractionDigits)
    ensures DollarSum(ts, kind, Float) == DownBy(j as real, fractionDigits, Double)
  {
    if ts == [] {
      j := 0;
      DownByZero(fractionDigits);
    } else {
      var front, last := ts[..|ts| - 1], ts[|ts| - 1];
      assert last.cents >= 0 && last.fractionDigits == fractionDigits && last.cents % Pow5(fractionDigits) == 0;
      SumsAreNotNegative(front, kind, fractionDigits);
      j := ExactSum(front, kind, fractionDigits);
      LastDollars(ts, kind, Float);
      if last.kind == kind {
        var k := ExactDollar(last);
        assert SumOf(ts, kind) == (j + k) * Pow5(fractionDigits);
        ExactAddition(j, k, fractionDigits);
        j := j + k;
      }
    }
  }

  lemma {:induction false} SumsAreNotNegative(ts: seq<Transaction>, kind: Kind, fractionDigits: nat)
    requires Plain(ts, fractionDigits)
    ensures SumOf(ts, kind) >= 0
  {
    if ts != [] { SumsAreNotNegative(ts[..|ts| - 1], kind, fractionDigits); }
  }

  /** For amounts that floats hold exactly the check decides what it is for, whatever parts a refund is made in. */
  lemma FullExactlyWhen(ts: seq<Transaction>, fractionDigits: nat)
    requires HeldExactly(ts, fractionDigits)
    requires SumOf(ts, Charge) < 9_007_199_254_740_992 * Pow5(fractionDigits)
    requires SumOf(ts, Refund) < 9_007_199_254_740_992 * Pow5(fractionDigits)
    ensures FullyRefunded(ts) <==> SumOf(ts, Refund) == SumOf(ts, Charge)
  {
    var j := ExactSum(ts, Refund, fractionDigits);
    var k := ExactSum(ts, Charge, fractionDigits);
    if FullyRefunded(ts) {
      DownByInjective(j as real, k as real, fractionDigits);
    }
    if SumOf(ts, Refund) == SumOf(ts, Charge) {
      SameFactor(j, k, Pow5(fractionDigits));
    }
  }

  // ----- A full refund that is not seen -----

  lemma DownBySeven(x: real, n: nat)
    requires n >= 7
    ensures DownBy(x, n, Double) == DownBy(x, n - 7, Double) / 128.0
  {
    assert DownBy(x, n, Double) == DownBy(x, n - 1, Double) / 2.0
           && DownBy(x, n - 1, Double) == DownBy(x, n - 2, Double) / 2.0;
    assert DownBy(x, n - 2, Double) == DownBy(x, n - 3, Double) / 2.0
           && DownBy(x, n - 3, Double) == DownBy(x, n - 4, Double) / 2.0;
    assert DownBy(x, n - 4, Double) == DownBy(x, n - 5, Double) / 2.0
           && DownBy(x, n - 5, Double) == DownBy(x, n - 6, Double) / 2.0;
    assert DownBy(x, n - 6, Double) == DownBy(x, n - 7, Double) / 2.0;
  }

  lemma DownByFortyTwo(x: real)
    ensures DownBy(x, 42, Double) == x / 4_398_046_511_104.0
  {
    DownBySeven(x, 42);
    DownBySeven(x, 35);
    DownBySeven(x, 28);
    DownBySeven(x, 21);
    DownBySeven(x, 14);
    DownBySeven(x, 7);
  }

  lemma DownByMore(x: real)
    ensures DownBy(x, 48, Double) == x / 281_474_976_710_656.0
    ensures DownBy(x, 54, Double) == x / 18_014_398_509_481_984.0
    ensures DownBy(x, 55, Double) == x / 36_028_797_018_963_968.0
    ensures DownBy(x, 56, Double) == x / 72_057_594_037_927_936.0
  {
    DownByFortyTwo(x);
    assert DownBy(x, 45, Double) == x / 35_184_372_088_832.0 by {
      assert DownBy(x, 43, Double) == DownBy(x, 42, Double) / 2.0
             && DownBy(x, 44, Double) == DownBy(x, 43, Double) / 2.0;
    }
    assert DownBy(x, 47, Double) == x / 140_737_488_355_328.0 by {
      assert DownBy(x, 46, Double) == DownBy(x, 45, Double) / 2.0;
    }
    DownBySeven(x, 54);
    DownBySeven(x, 55);
    assert DownBy(x, 56, Double) == DownBy(x, 55, Double) / 2.0;
  }

  /** x has its 53 digits before the point. */
  lemma FloatIs(x: real, n: nat)
    requires Low(Double) <= x < 2.0 * Low(Double)
    ensures Float(DownBy(x, n, Double)) == DownBy(HalfEven(x) as real, n, Double)
  {
    RoundShiftsBy(x, n, Double);
  }

  const TENTH := 7_205_759_403_792_794.0 / 72_057_594_037_927_936.0
  const FIFTH := 7_205_759_403_792_794.0 / 36_028_797_018_963_968.0

  lemma FloatsOfTenths()
    ensures Float(0.1) == TENTH && Float(0.2) == FIFTH
    ensures Float(0.3) == 5_404_319_552_844_595.0 / 18_014_398_509_481_984.0
    ensures Float(TENTH + FIFTH) == 5_404_319_552_844_596.0 / 18_014_398_509_481_984.0
  {
    FloatIs(7_205_759_403_792_793.6, 56);
    DownByMore(7_205_759_403_792_793.6);
    DownByMore(7_205_759_403_792_794.0);
    FloatIs(7_205_759_403_792_793.6, 55);
    FloatIs(5_404_319_552_844_595.2, 54);
    DownByMore(5_404_319_552_844_595.2);
    DownByMore(5_404_319_552_844_595.0);
    FloatIs(5_404_319_552_844_595.5, 54);
    DownByMore(5_404_319_552_844_595.5);
    DownByMore(5_404_319_552_844_596.0);
  }

  function OfCents(kind: Kind, cents: int): Transaction {
    Transaction("", kind, None, cents, "USD", 2, 0, TransactionSuccess)
  }

  lemma TwoDigits(kind: Kind)
    ensures Dollars(OfCents(kind, 10), Float) == Float(0.1) && Dollars(OfCents(kind, 20), Float) == Float(0.2)
    ensures Dollars(OfCents(kind, 30), Float) == Float(0.3)
  {
    assert Pow10(2) == 10.0 * Pow10(1) && Pow10(1) == 10.0 * Pow10(0);
  }

  lemma SumOfOne(x: Transaction, round: real -> real)
    requires x.kind == Charge
    ensures DollarSum([x], Charge, round) == round(0.0 + Dollars(x, round)) && DollarSum([x], Refund, round) == 0.0
    ensures SumOf([x], Charge) == x.cents && SumOf([x], Refund) == 0
  {
    var front := [x][..|[x]| - 1];
    assert front == [];
    assert DollarSum(front, Charge, round) == 0.0 && DollarSum(front, Refund, round) == 0.0;
    assert SumOf(front, Charge) == 0 && SumOf(front, Refund) == 0;
  }

  lemma SumOfTwo(x: Transaction, y: Transaction, z: Transaction, round: real -> real)
    requires x.kind == Charge && y.kind == z.kind == Refund
    ensures DollarSum([x, y, z], Charge, round) == round(0.0 + Dollars(x, round))
    ensures DollarSum([x, y, z], Refund, round) == round(round(0.0 + Dollars(y, round)) + Dollars(z, round))
    ensures SumOf([x, y, z], Charge) == x.cents && SumOf([x, y, z], Refund) == y.cents + z.cents
  {
    var ts := [x, y, z];
    assert ts[..2] == [x, y] && [x, y][..1] == [x];
    SumOfOne(x, round);
    assert DollarSum([x, y], Refund, round) == round(0.0 + Dollars(y, round));
    assert SumOf([x, y], Charge) == x.cents && SumOf([x, y], Refund) == y.cents;
  }

  /** The other way it does not hold: a charge of 30 cents that is refunded by 10 and 20 cents does not count
      as fully refunded. */
  lemma FullRefundMissed()
    ensures var ts := [OfCents(Charge, 30), OfCents(Refund, 10), OfCents(Refund, 20)];
            SumOf(ts, Refund) == SumOf(ts, Charge) && !FullyRefunded(ts)
  {
    SumOfTwo(OfCents(Charge, 30), OfCents(Refund, 10), OfCents(Refund, 20), Float);
    TwoDigits(Charge);
    TwoDigits(Refund);
    FloatsOfTenths();
    RoundIsKept(0.3, Double);
    RoundIsKept(0.1, Double);
  }

  // ----- Transactions that failed -----

  lemma {:induction false} AmountsIgnoreState(ts: seq<Transaction>, ts': seq<Transaction>, kind: Kind)
    requires |ts'| == |ts| && forall i :: 0 <= i < |ts| ==> ts'[i] == ts[i].(state := ts'[i].state)
    ensures AmountsOf(ts', kind) == AmountsOf(ts, kind)
  {
    if ts != [] {
      var n := |ts| - 1;
      assert ts'[n] == ts[n].(state := ts'[n].state);
      AmountsIgnoreState(ts[..n], ts'[..n], kind);
    }
  }

  /** The check looks at kinds and amounts only: it does not ask whether a transaction succeeded. */
  lemma CheckIgnoresState(ts: seq<Transaction>, ts': seq<Transaction>)
    requires |ts'| == |ts| && forall i :: 0 <= i < |ts| ==> ts'[i] == ts[i].(state := ts'[i].state)
    ensures FullyRefunded(ts') <==> FullyRefunded(ts)
  {
    AmountsIgnoreState(ts, ts', Refund);
    AmountsIgnoreState(ts, ts', Charge);
    SumsOfAmounts(ts, Refund);
    SumsOfAmounts(ts, Charge);
    SumsOfAmounts(ts', Refund);
    SumsOfAmounts(ts', Charge);
  }

  lemma SumsOfAmounts(ts: seq<Transaction>, kind: Kind)
    ensures DollarSum(ts, kind, Float) == Accumulate(DollarsOf(AmountsOf(ts, kind), Float), Float)
  {
    DollarSumAccumulates(ts, kind, Float);
    DollarsOfAmounts(ts, kind, Float);
  }

  function FailedSum(ts: seq<Transaction>, kind: Kind): int {
    if ts == [] then 0
    else
      var last := ts[|ts| - 1];
      FailedSum(ts[..|ts| - 1], kind)
      + if last.kind == kind && last.state == TransactionFailure then last.cents else 0
  }

  function EffectiveSum(ts: seq<Transaction>, kind: Kind): int {
    if ts == [] then 0
    else
      var last := ts[|ts| - 1];
      EffectiveSum(ts[..|ts| - 1], kind)
      + if last.kind == kind && last.state != TransactionFailure then last.cents else 0
  }

  lemma {:induction false} SumSplits(ts: seq<Transaction>, kind: Kind)
    ensures SumOf(ts, kind) == EffectiveSum(ts, kind) + FailedSum(ts, kind)
  {
    if ts != [] { SumSplits(ts[..|ts| - 1], kind); }
  }

  /** So a payment that counts as fully refunded has had its money returned exactly when what failed on one side
      failed on the other; a failed refund of a charge that succeeded is counted by mistake. */
  lemma FullIsEffectiveExactlyWhen(ts: seq<Transaction>, fractionDigits: nat, cents: int)
    requires Plain(ts, fractionDigits) && Tellable(|ts|, cents) && SumOf(ts, Charge) <= cents
             && SumOf(ts, Refund) <= cents
    requires FullyRefunded(ts)
    ensures EffectiveSum(ts, Refund) == EffectiveSum(ts, Charge) <==> FailedSum(ts, Refund) == FailedSum(ts, Charge)
  {
    FullMeansFull(ts, fractionDigits, cents);
    SumSplits(ts, Refund);
    SumSplits(ts, Charge);
  }

  lemma ChargeIsNotFull(charge: Transaction)
    requires charge.kind == Charge && charge.cents > 0
    ensures !FullyRefunded([charge])
  {
    SumOfOne(charge, Float);
    var dollars := charge.cents as real / Pow10(charge.fractionDigits);
    Quotient(charge.cents as real, Pow10(charge.fractionDigits));
    assert dollars > 0.0;
    RoundIsClose(dollars, Double);
    RoundIsClose(Float(dollars), Double);
  }

  lemma WholeRefundIsFull(charge: Transaction, refund: Transaction)
    requires charge.kind == Charge && refund.kind == Refund
    requires charge.cents == refund.cents && charge.fractionDigits == refund.fractionDigits
    ensures FullyRefunded([charge, refund])
  {
    var ts := [charge, refund];
    assert ts[..1] == [charge] && ts[..1][..0] == [];
    assert AmountsOf([charge], Charge) == [(charge.cents, charge.fractionDigits)] && AmountsOf([charge], Refund) == [];
    SameAmountsAreFull(ts);
  }

  // ----- The amounts PayPal reports -----

  lemma TwiceClose(y: real, z: real, c: real)
    requires c >= 0.0 && Close(y, c / 100.0, Double) && Close(z, y * 100.0, Double) && 3.0 * c < 2.0 * Low(Double)
    ensures -1.0 < z - c < 1.0 && z >= 0.0
  {
  }

  /** The recorded amount is the refunded one exactly when the float product is not below it; otherwise it is one
      cent less. */
  lemma PayPalCentsExactlyWhen(cents: int)
    requires 0 <= cents && 3 * cents < 9_007_199_254_740_992
    ensures PayPalCents(cents) == cents <==> PayPalProduct(cents) >= cents as real
    ensures PayPalCents(cents) == cents || PayPalCents(cents) == cents - 1
  {
    var c := cents as real;
    RoundIsClose(c / 100.0, Double);
    RoundIsClose(Float(c / 100.0) * 100.0, Double);
    TwiceClose(Float(c / 100.0), PayPalProduct(cents), c);
  }

  /** The amount with its point moved until a hundredth of it has its 53 digits before the point. */
  function Scaled(x: int): (r: int)
    requires 0 < x < 900_719_925_474_099_200
    ensures 450_359_962_737_049_600 <= r < 900_719_925_474_099_200
    decreases 900_719_925_474_099_200 - x
  {
    if x < 450_359_962_737_049_600 then Scaled(2 * x) else x
  }

  /** The amounts that lose a cent, in integers: the hundredth is rounded down by more than a third, and the product
      is large enough that its last digits do not make up for it. */
  predicate LosesCent(cents: int)
    requires 0 < cents < 900_719_925_474_099_200
  {
    var x := Scaled(cents);
    x < 576_460_752_303_423_488 && 32 < x % 100 < 50
  }

  function FloatProduct(x: int): real {
    Float(Float(x as real / 100.0) * 100.0)
  }

  lemma ProductDoubles(x: int)
    ensures FloatProduct(2 * x) == 2.0 * FloatProduct(x)
  {
    var q := x as real / 100.0;
    assert (2 * x) as real / 100.0 == Up(q, Double);
    RoundShifts(q, Double);
    RoundShifts(Float(q) * 100.0, Double);
    assert Up(Float(q), Double) * 100.0 == Up(Float(q) * 100.0, Double);
  }

  /** So nothing is lost by moving the point. */
  lemma {:induction false} ScaledLosesToo(x: int)
    requires 0 < x < 900_719_925_474_099_200
    ensures FloatProduct(x) < x as real <==> FloatProduct(Scaled(x)) < Scaled(x) as real
    decreases 900_719_925_474_099_200 - x
  {
    if x < 450_359_962_737_049_600 {
      ProductDoubles(x);
      ScaledLosesToo(2 * x);
    }
  }

  lemma {:induction false} ScaledKeepsFactor(x: int)
    requires 0 < x < 900_719_925_474_099_200 && x % 256 == 0
    ensures Scaled(x) % 256 == 0
    decreases 900_719_925_474_099_200 - x
  {
    if x < 450_359_962_737_049_600 { ScaledKeepsFactor(2 * x); }
  }

  lemma ScaledHasFactor(cents: int)
    requires 0 < cents && 3 * cents < 9_007_199_254_740_992
    ensures Scaled(cents) % 256 == 0
  {
    assert Scaled(cents) == Scaled(2 * cents) == Scaled(4 * cents) == Scaled(8 * cents) == Scaled(16 * cents);
    assert Scaled(16 * cents) == Scaled(32 * cents) == Scaled(64 * cents) == Scaled(128 * cents);
    assert Scaled(128 * cents) == Scaled(256 * cents);
    ScaledKeepsFactor(256 * cents);
  }

  /** Halves do not occur for a multiple of four. */
  lemma HundredthRounds(x: int)
    requires x % 4 == 0
    ensures HalfEven(x as real / 100.0) == if x % 100 < 50 then x / 100 else x / 100 + 1
  {
    var k, r := x / 100, x % 100;
    assert x == 100 * k + r;
    assert r != 50;
    assert (x as real / 100.0) == k as real + r as real / 100.0;
    assert (x as real / 100.0).Floor == k;
  }

  lemma FloatOfHundredth(x: int)
    requires 450_359_962_737_049_600 <= x < 900_719_925_474_099_200 && x % 4 == 0
    ensures Float(x as real / 100.0) == (if x % 100 < 50 then x / 100 else x / 100 + 1) as real
  {
    HundredthRounds(x);
    assert Low(Double) <= x as real / 100.0 < Up(Low(Double), Double);
  }

  lemma DownBySix(x: real)
    ensures DownBy(x, 6, Double) == x / 64.0 && DownBy(x, 7, Double) == x / 128.0
  {
    assert DownBy(x, 1, Double) == Down(DownBy(x, 0, Double), Double) == x / 2.0;
    assert DownBy(x, 2, Double) == Down(DownBy(x, 1, Double), Double) == x / 4.0;
    assert DownBy(x, 3, Double) == Down(DownBy(x, 2, Double), Double) == x / 8.0;
    assert DownBy(x, 4, Double) == Down(DownBy(x, 3, Double), Double) == x / 16.0;
    assert DownBy(x, 5, Double) == Down(DownBy(x, 4, Double), Double) == x / 32.0;
  }

  /** Integers of 59 and of 60 binary digits are rounded to multiples of 64 and of 128. */
  lemma FloatOfLarge(n: int)
    ensures 288_230_376_151_711_744 <= n < 576_460_752_303_423_488
            ==> Float(n as real) == 64.0 * HalfEven(n as real / 64.0) as real
    ensures 576_460_752_303_423_488 <= n < 1_152_921_504_606_846_976
            ==> Float(n as real) == 128.0 * HalfEven(n as real / 128.0) as real
  {
    DownBySix(n as real);
    DownBySix(Float(n as real));
    RoundShiftsBy(n as real, 6, Double);
    RoundShiftsBy(n as real, 7, Double);
  }

  lemma HalfEvenBelow(q: real, w: int)
    requires w % 2 == 0
    ensures HalfEven(q) < w <==> w as real - q > 0.5
  {
    var f := q.Floor;
    if w as real - q == 0.5 {
      assert f == w - 1;
    }
  }

  /** Rounding n to a multiple of the unit goes below x exactly when n is more than half a unit below x. */
  lemma FarBelow64(n: int, x: int, w: int, r: real)
    requires x == 64 * w && w % 2 == 0 && r == 64.0 * HalfEven(n as real / 64.0) as real
    ensures r < x as real <==> x - n > 32
  {
    var h := HalfEven(n as real / 64.0);
    HalfEvenBelow(n as real / 64.0, w);
    assert h < w <==> r < x as real;
  }

  lemma FarBelow128(n: int, x: int, w: int, r: real)
    requires x == 128 * w && w % 2 == 0 && r == 128.0 * HalfEven(n as real / 128.0) as real
    ensures r < x as real <==> x - n > 64
  {
    var h := HalfEven(n as real / 128.0);
    HalfEvenBelow(n as real / 128.0, w);
    assert h < w <==> r < x as real;
  }

  /** At 2^59, where the units change, nothing lies in between. */
  lemma NoneBetween(n: int, w: int)
    requires -50 < 256 * w - n < 50 && n % 100 == 0
    ensures 256 * w >= 576_460_752_303_423_488 && 256 * w - n > 32 ==> n >= 576_460_752_303_423_488
    ensures 256 * w < 576_460_752_303_423_488 && 256 * w - n > 32 ==> n < 576_460_752_303_423_488
  {
    var k := n / 100;
    assert n == 100 * k;
  }

  /** Rounding a large n goes below x when n is more than half a unit below x; the unit is 64 or 128. */
  predicate BelowByUnit(n: int, x: int, r: real) {
    if n < 576_460_752_303_423_488 then r < x as real <==> x - n > 32 else r < x as real <==> x - n > 64
  }

  lemma LargeBelow(n: int, x: int, w: int, r: real)
    requires x == 256 * w
    requires n < 576_460_752_303_423_488 ==> r == 64.0 * HalfEven(n as real / 64.0) as real
    requires n >= 576_460_752_303_423_488 ==> r == 128.0 * HalfEven(n as real / 128.0) as real
    ensures BelowByUnit(n, x, r)
  {
    if n < 576_460_752_303_423_488 {
      FarBelow64(n, x, 4 * w, r);
    } else {
      FarBelow128(n, x, 2 * w, r);
    }
  }

  /** The second rounding, of a number n that is less than fifty away from x; r is n rounded. */
  lemma SecondRounding(n: int, x: int, w: int, r: real)
    requires x == 256 * w && -50 < x - n < 50 && n % 100 == 0 && BelowByUnit(n, x, r)
    ensures r < x as real <==> x < 576_460_752_303_423_488 && x - n > 32
  {
    NoneBetween(n, w);
  }

  /** The nearest multiple of a hundred. */
  function NearestHundred(x: int): (n: int)
    requires x % 4 == 0
    ensures -50 < x - n < 50 && n % 100 == 0
    ensures x - n > 32 <==> 32 < x % 100 < 50
  {
    var k, r := x / 100, x % 100;
    assert x == 100 * k + r && r != 50;
    if r < 50 then 100 * k else 100 * k + 100
  }

  lemma ProductOfRounded(x: int, k: int)
    requires Float(x as real / 100.0) == k as real
    ensures FloatProduct(x) == Float((100 * k) as real)
  {
    assert k as real * 100.0 == (100 * k) as real;
  }

  lemma ProductRounds(x: int)
    requires 450_359_962_737_049_600 <= x < 900_719_925_474_099_200 && x % 4 == 0
    ensures FloatProduct(x) == Float(NearestHundred(x) as real)
  {
    FloatOfHundredth(x);
    ProductOfRounded(x, if x % 100 < 50 then x / 100 else x / 100 + 1);
  }

  lemma ScaledProduct(x: int)
    requires 450_359_962_737_049_600 <= x < 900_719_925_474_099_200 && x % 256 == 0
    ensures FloatProduct(x) < x as real <==> x < 576_460_752_303_423_488 && 32 < x % 100 < 50
  {
    var w := x / 256;
    assert x == 256 * w && x % 4 == 0;
    ProductRounds(x);
    var n := NearestHundred(x);
    FloatOfLarge(n);
    LargeBelow(n, x, w, Float(n as real));
    SecondRounding(n, x, w, Float(n as real));
  }

  /** Which amounts lose a cent: exactly those of `LosesCent`, and they lose one. */
  lemma PayPalLosesCentExactlyWhen(cents: int)
    requires 0 < cents && 3 * cents < 9_007_199_254_740_992
    ensures PayPalCents(cents) == if LosesCent(cents) then cents - 1 else cents
  {
    PayPalCentsExactlyWhen(cents);
    ScaledHasFactor(cents);
    ScaledLosesToo(cents);
    ScaledProduct(Scaled(cents));
  }

  lemma ProductOf1999()
    ensures PayPalProduct(1999) == 8_791_694_975_696_895.0 / 4_398_046_511_104.0
  {
    DownByMore(19.99 * 281_474_976_710_656.0);
    FloatIs(19.99 * 281_474_976_710_656.0, 48);
    DownByMore(HalfEven(19.99 * 281_474_976_710_656.0) as real);
    var p := 5_626_684_784_446_013.0 / 281_474_976_710_656.0;
    assert Float(1999.0 / 100.0) == p;
    DownByFortyTwo(p * 100.0 * 4_398_046_511_104.0);
    FloatIs(p * 100.0 * 4_398_046_511_104.0, 42);
    DownByFortyTwo(8_791_694_975_696_895.0);
  }

  /** A refund of $19.99 is recorded as $19.98, and the payment it refunds in full does not count as fully
      refunded. */
  lemma PayPalCentLost()
    ensures PayPalCents(1999) == 1998
    ensures !FullyRefunded([OfCents(Charge, 1999), OfCents(Refund, PayPalCents(1999))])
  {
    ProductOf1999();
    var ts := [OfCents(Charge, 1999), OfCents(Refund, 1998)];
    assert ts[..1] == [ts[0]];
    SumOfOne(ts[0], Float);
    assert SumOf(ts, Charge) == 1999 && SumOf(ts, Refund) == 1998;
    if FullyRefunded(ts) {
      FullMeansFull(ts, 2, 1999);
    }
  }
}
