/** Arithmetic with a fixed number of significant digits, rounded half to even after every operation: the decimal
    context (28 digits) and binary floating point (53 digits). Exponents are not bounded. */
module SignificantDigits {

  datatype Format = Decimal28 | Double

  /** The smallest number whose significant digits all stand before the point. */
  function Low(f: Format): real {
    match f
    case Decimal28 => 1_000_000_000_000_000_000_000_000_000.0
    case Double => 4_503_599_627_370_496.0
  }

  /** Moving the point by one digit. */
  function Up(x: real, f: Format): real {
    match f
    case Decimal28 => x * 10.0
    case Double => x * 2.0
  }

  function Down(x: real, f: Format): real {
    match f
    case Decimal28 => x / 10.0
    case Double => x / 2.0
  }

  function HalfEven(x: real): int {
    var f := x.Floor;
    var rest := x - f as real;
    if rest < 0.5 || (rest == 0.5 && f % 2 == 0) then f else f + 1
  }

  /** What it is: the nearest integer, and the even one of two that are equally near. */
  lemma HalfEvenIsNearestEven(x: real)
    ensures -0.5 <= HalfEven(x) as real - x <= 0.5
    ensures HalfEven(x) as real - x == 0.5 || HalfEven(x) as real - x == -0.5 ==> HalfEven(x) % 2 == 0
  {
    assert x.Floor % 2 != 0 ==> (x.Floor + 1) % 2 == 0;
  }

  /** How far the point is from where it has to be. */
  function Distance(x: real, f: Format): nat
    requires x > 0.0
  {
    if x < Low(f) then
      Quotient(Low(f), x);
      (Low(f) / x).Floor
    else
      Quotient(x, Low(f));
      (x / Low(f)).Floor
  }

  lemma Quotient(x: real, y: real)
    requires x >= 0.0 && y > 0.0
    ensures x / y >= 0.0 && x / y * y == x
    ensures x > y ==> x / y > 1.0
  {
    var q := x / y;
    assert q * y == x;
    assert q < 0.0 ==> q * y < 0.0;
    assert q <= 1.0 ==> (1.0 - q) * y >= 0.0;
  }

  lemma Product(x: real, y: real, p: real)
    requires x <= y && p >= 0.0
    ensures x * p <= y * p
  {
    assert (y - x) * p >= 0.0;
  }

  lemma Cancel(x: real, y: real, p: real)
    requires x * p <= y * p && p > 0.0
    ensures x <= y
  {
    assert x > y ==> (x - y) * p > 0.0;
  }

  lemma SignOfFactor(x: real, p: real, xp: real)
    requires x * p == xp && xp >= 0.0 && p > 0.0
    ensures x >= 0.0
  {
  }

  lemma Distribute(q: real, q': real, y: real, x: real, x': real)
    requires q * y == x && q' * y == x'
    ensures (q - 2.0 * q') * y == x - 2.0 * x'
  {
  }

  /** Halving the numerator or doubling the denominator halves the quotient at least. */
  lemma HalvedQuotient(x: real, y: real, x': real)
    requires y > 0.0 && x' > 0.0 && 2.0 * x' <= x
    ensures 2.0 * (x' / y) <= x / y
  {
    var q, q' := x / y, x' / y;
    Quotient(x, y);
    Quotient(x', y);
    Distribute(q, q', y, x, x');
    SignOfFactor(q - 2.0 * q', y, x - 2.0 * x');
  }

  lemma DoubledDivisor(x: real, y: real, y': real)
    requires y > 0.0 && x > 0.0 && y' >= 2.0 * y
    ensures 2.0 * (x / y') <= x / y
  {
    var q, q' := x / y, x / y';
    Quotient(x, y);
    Quotient(x, y');
    Product(2.0 * y, y', q');
    assert (2.0 * q') * y == 2.0 * y * q' && y' * q' == q' * y';
    Cancel(2.0 * q', q, y);
  }

  lemma AtLeastOne(x: real, y: real)
    requires y > 0.0 && x >= y
    ensures x / y >= 1.0
  {
    Quotient(x, y);
    Cancel(1.0, x / y, y);
  }

  lemma HalfFloor(q: real, q': real)
    requires q >= 1.0 && 0.0 <= q' && 2.0 * q' <= q
    ensures q'.Floor < q.Floor
  {
  }

  lemma MoveUp(x: real, f: Format)
    requires 0.0 < x < Low(f)
    ensures Up(x, f) < Low(f) ==> Distance(Up(x, f), f) < Distance(x, f)
  {
    if Up(x, f) < Low(f) {
      DoubledDivisor(Low(f), x, Up(x, f));
      AtLeastOne(Low(f), x);
      Quotient(Low(f), Up(x, f));
      HalfFloor(Low(f) / x, Low(f) / Up(x, f));
    }
  }

  lemma MoveDown(x: real, f: Format)
    requires x >= Up(Low(f), f)
    ensures Down(x, f) >= Low(f) && Distance(Down(x, f), f) < Distance(x, f)
  {
    HalvedQuotient(x, Low(f), Down(x, f));
    AtLeastOne(x, Low(f));
    Quotient(Down(x, f), Low(f));
    HalfFloor(x / Low(f), Down(x, f) / Low(f));
  }

  /** Shift the point until the digits before it are the significant ones, and round there. */
  function RoundPositive(x: real, f: Format): (r: real)
    requires x > 0.0
    decreases if x < Low(f) then 1 else 0, Distance(x, f)
  {
    if x < Low(f) then
      MoveUp(x, f);
      Down(RoundPositive(Up(x, f), f), f)
    else if x >= Up(Low(f), f) then
      MoveDown(x, f);
      Up(RoundPositive(Down(x, f), f), f)
    else HalfEven(x) as real
  }

  /** The result of an operation whose exact result is x. */
  function Round(x: real, f: Format): real {
    if x == 0.0 then 0.0 else if x > 0.0 then RoundPositive(x, f) else -RoundPositive(-x, f)
  }

  // ----- Error, shifts, and what is kept -----

  /** The error is at most half a unit in the last digit, relative to x. */
  predicate Close(r: real, x: real, f: Format) {
    -x <= (r - x) * (2.0 * Low(f)) <= x
  }

  lemma ShiftKeepsDigits(x: real, f: Format)
    requires x > 0.0
    ensures RoundPositive(Up(x, f), f) == Up(RoundPositive(x, f), f)
  {
  }

  lemma CloseMovesUp(r: real, x: real, f: Format)
    ensures Close(Up(r, f), Up(x, f), f) <==> Close(r, x, f)
  {
    match f
    case Decimal28 =>
    case Double =>
  }

  lemma CloseMovesDown(r: real, x: real, f: Format)
    ensures Close(Down(r, f), Down(x, f), f) <==> Close(r, x, f)
  {
    match f
    case Decimal28 =>
    case Double =>
  }

  lemma HalfEvenIsClose(x: real, f: Format)
    requires x >= Low(f)
    ensures Close(HalfEven(x) as real, x, f)
  {
    assert -0.5 <= HalfEven(x) as real - x <= 0.5;
    match f
    case Decimal28 =>
    case Double =>
  }

  lemma {:induction false} RoundPositiveIsClose(x: real, f: Format)
    requires x > 0.0
    ensures Close(RoundPositive(x, f), x, f)
    decreases if x < Low(f) then 1 else 0, Distance(x, f)
  {
    if x < Low(f) {
      MoveUp(x, f);
      RoundPositiveIsClose(Up(x, f), f);
      CloseMovesDown(RoundPositive(Up(x, f), f), Up(x, f), f);
      assert Down(Up(x, f), f) == x;
    } else if x >= Up(Low(f), f) {
      MoveDown(x, f);
      RoundPositiveIsClose(Down(x, f), f);
      CloseMovesUp(RoundPositive(Down(x, f), f), Down(x, f), f);
      assert Up(Down(x, f), f) == x;
    } else {
      HalfEvenIsClose(x, f);
    }
  }

  lemma CloseIsPositive(r: real, x: real, f: Format)
    requires x > 0.0 && Close(r, x, f)
    ensures r > 0.0
  {
    match f
    case Decimal28 =>
    case Double =>
  }

  lemma RoundIsClose(x: real, f: Format)
    requires x >= 0.0
    ensures Close(Round(x, f), x, f) && Round(x, f) >= 0.0 && (x > 0.0 ==> Round(x, f) > 0.0)
  {
    if x > 0.0 {
      RoundPositiveIsClose(x, f);
      CloseIsPositive(RoundPositive(x, f), x, f);
    }
  }

  /** Integers of few enough digits are kept. */
  lemma {:induction false} IntegerIsKept(n: int, f: Format)
    requires 0 < n && n as real < Up(Low(f), f)
    ensures RoundPositive(n as real, f) == n as real
    decreases Low(f).Floor - n
  {
    if n as real < Low(f) {
      var m := if f == Decimal28 then n * 10 else n * 2;
      assert m as real == Up(n as real, f);
      IntegerIsKept(m, f);
      ShiftKeepsDigits(n as real, f);
    }
  }

  lemma HalfEvenInRange(x: real, f: Format)
    requires Low(f) <= x < Up(Low(f), f)
    ensures Low(f) <= HalfEven(x) as real <= Up(Low(f), f)
  {
    match f
    case Decimal28 =>
    case Double =>
  }

  lemma LowIsKept(f: Format)
    ensures RoundPositive(Low(f), f) == Low(f) && RoundPositive(Up(Low(f), f), f) == Up(Low(f), f)
  {
    ShiftKeepsDigits(Low(f), f);
    match f
    case Decimal28 => IntegerIsKept(1_000_000_000_000_000_000_000_000_000, f);
    case Double => IntegerIsKept(4_503_599_627_370_496, f);
  }

  lemma HalfEvenIsKept(x: real, f: Format)
    requires Low(f) <= x < Up(Low(f), f)
    ensures HalfEven(x) > 0 && RoundPositive(HalfEven(x) as real, f) == HalfEven(x) as real
  {
    HalfEvenInRange(x, f);
    if HalfEven(x) as real < Up(Low(f), f) {
      IntegerIsKept(HalfEven(x), f);
    } else {
      LowIsKept(f);
    }
  }

  lemma {:induction false} ResultIsKept(x: real, f: Format)
    requires x > 0.0
    ensures RoundPositive(x, f) > 0.0 && RoundPositive(RoundPositive(x, f), f) == RoundPositive(x, f)
    decreases if x < Low(f) then 1 else 0, Distance(x, f)
  {
    RoundPositiveIsClose(x, f);
    CloseIsPositive(RoundPositive(x, f), x, f);
    if x < Low(f) {
      MoveUp(x, f);
      ResultIsKept(Up(x, f), f);
      ShiftKeepsDigits(RoundPositive(x, f), f);
    } else if x >= Up(Low(f), f) {
      MoveDown(x, f);
      ResultIsKept(Down(x, f), f);
      ShiftKeepsDigits(RoundPositive(Down(x, f), f), f);
    } else {
      HalfEvenIsKept(x, f);
    }
  }

  lemma RoundIsKept(x: real, f: Format)
    ensures Round(Round(x, f), f) == Round(x, f)
  {
    if x > 0.0 { ResultIsKept(x, f); }
    if x < 0.0 { ResultIsKept(-x, f); }
  }

  lemma SmallIntegerIsKept(n: int, f: Format)
    requires -Up(Low(f), f) < n as real < Up(Low(f), f)
    ensures Round(n as real, f) == n as real
  {
    if n > 0 { IntegerIsKept(n, f); }
    if n < 0 {
      assert (-n) as real == -(n as real);
      IntegerIsKept(-n, f);
    }
  }

  lemma RoundShifts(x: real, f: Format)
    ensures Round(Up(x, f), f) == Up(Round(x, f), f) && Round(Down(x, f), f) == Down(Round(x, f), f)
  {
    if x > 0.0 {
      ShiftKeepsDigits(x, f);
      ShiftKeepsDigits(Down(x, f), f);
    }
    if x < 0.0 {
      ShiftKeepsDigits(-x, f);
      ShiftKeepsDigits(Down(-x, f), f);
    }
  }

  // ----- Rounding keeps the order -----

  lemma {:induction false} RoundedUpToLow(x: real, f: Format)
    requires 0.0 < x <= Low(f)
    ensures RoundPositive(x, f) <= Low(f)
    decreases if x < Low(f) then 1 else 0, Distance(x, f)
  {
    if x == Low(f) {
      LowIsKept(f);
    } else {
      MoveUp(x, f);
      if Up(x, f) <= Low(f) { RoundedUpToLow(Up(x, f), f); } else { HalfEvenInRange(Up(x, f), f); }
    }
  }

  lemma {:induction false} RoundedFromLow(x: real, f: Format)
    requires x >= Low(f)
    ensures RoundPositive(x, f) >= Low(f)
    decreases Distance(x, f)
  {
    if x >= Up(Low(f), f) {
      MoveDown(x, f);
      RoundedFromLow(Down(x, f), f);
    } else {
      HalfEvenInRange(x, f);
    }
  }

  /** The same at the other end of the range that is rounded in place. */
  lemma RoundedAtUp(x: real, f: Format)
    requires x > 0.0
    ensures x <= Up(Low(f), f) ==> RoundPositive(x, f) <= Up(Low(f), f)
    ensures x >= Up(Low(f), f) ==> RoundPositive(x, f) >= Up(Low(f), f)
  {
    ShiftKeepsDigits(Down(x, f), f);
    assert Up(Down(x, f), f) == x;
    if x <= Up(Low(f), f) { RoundedUpToLow(Down(x, f), f); }
    if x >= Up(Low(f), f) { RoundedFromLow(Down(x, f), f); }
  }

  lemma HalfEvenMonotone(x: real, y: real)
    requires x <= y
    ensures HalfEven(x) <= HalfEven(y)
  {
    if x.Floor == y.Floor {
    } else {
      assert x.Floor + 1 <= y.Floor;
    }
  }

  lemma {:induction false} PositiveMonotone(x: real, y: real, f: Format)
    requires 0.0 < x <= y
    ensures RoundPositive(x, f) <= RoundPositive(y, f)
    decreases if y < Low(f) then 1 else 0, Distance(y, f)
  {
    if y < Low(f) {
      MoveUp(y, f);
      PositiveMonotone(Up(x, f), Up(y, f), f);
    } else if x < Low(f) {
      RoundedUpToLow(x, f);
      RoundedFromLow(y, f);
    } else if x >= Up(Low(f), f) {
      MoveDown(y, f);
      PositiveMonotone(Down(x, f), Down(y, f), f);
    } else if y >= Up(Low(f), f) {
      RoundedAtUp(x, f);
      RoundedAtUp(y, f);
    } else {
      HalfEvenMonotone(x, y);
    }
  }

  lemma RoundMonotone(x: real, y: real, f: Format)
    requires 0.0 <= x <= y
    ensures Round(x, f) <= Round(y, f)
  {
    RoundIsClose(y, f);
    if x > 0.0 { PositiveMonotone(x, y, f); }
  }

  /** Moving the point by n digits. */
  function DownBy(x: real, n: nat, f: Format): real {
    if n == 0 then x else Down(DownBy(x, n - 1, f), f)
  }

  lemma {:induction false} RoundShiftsBy(x: real, n: nat, f: Format)
    ensures Round(DownBy(x, n, f), f) == DownBy(Round(x, f), n, f)
  {
    if n > 0 {
      RoundShiftsBy(x, n - 1, f);
      RoundShifts(DownBy(x, n - 1, f), f);
    }
  }

  // ----- Sums -----

  /** Adding up from the left, rounding after each addition. */
  function Accumulate(terms: seq<real>, round: real -> real): real {
    if terms == [] then 0.0 else round(Accumulate(terms[..|terms| - 1], round) + terms[|terms| - 1])
  }

  /** All that the error bounds need to know of an arithmetic. */
  ghost predicate Rounds(round: real -> real, f: Format) {
    forall x :: x >= 0.0 ==> Close(round(x), x, f) && round(x) >= 0.0
  }

  function Sum(terms: seq<real>): real {
    if terms == [] then 0.0 else Sum(terms[..|terms| - 1]) + terms[|terms| - 1]
  }

  /** A term that took at most two operations to compute. */
  predicate NearTerm(t: real, x: real, f: Format) {
    x >= 0.0 && -3.0 * x <= (t - x) * (2.0 * Low(f)) <= 3.0 * x
  }

  ghost predicate NearTerms(terms: seq<real>, exact: seq<real>, f: Format) {
    |terms| == |exact| && forall i :: 0 <= i < |terms| ==> NearTerm(terms[i], exact[i], f)
  }

  lemma {:induction false} SumIsNotNegative(terms: seq<real>)
    requires forall i :: 0 <= i < |terms| ==> terms[i] >= 0.0
    ensures Sum(terms) >= 0.0
  {
    if terms != [] { SumIsNotNegative(terms[..|terms| - 1]); }
  }

  predicate WithinBudget(sum: real, exact: real, budget: real, f: Format) {
    -budget <= (sum - exact) * (2.0 * Low(f)) <= budget
  }

  /** One addition: the error grows by at most six units of the total. */
  lemma AdditionError(acc: real, t: real, r: real, sum: real, x: real, total: real, error: real, f: Format)
    requires 0.0 <= sum && NearTerm(t, x, f) && sum + x <= total && acc >= 0.0
    requires acc + t >= 0.0 ==> Close(r, acc + t, f)
    requires WithinBudget(acc, sum, error, f) && error <= total * Low(f)
    ensures acc + t >= 0.0 && WithinBudget(r, sum + x, error + 6.0 * total, f)
  {
    match f
    case Decimal28 =>
    case Double =>
  }

  /** Six units of the total for each of n terms. */
  function Budget(n: nat, total: real): (b: real)
    ensures total >= 0.0 ==> b >= 0.0
  {
    if n == 0 then 0.0 else Budget(n - 1, total) + 6.0 * total
  }

  lemma {:induction false} BudgetIsProduct(n: nat, total: real)
    ensures Budget(n, total) == 6.0 * (n as real * total)
  {
    if n > 0 {
      BudgetIsProduct(n - 1, total);
      assert n as real * total == (n - 1) as real * total + total;
    }
  }

  lemma NoErrorYet(f: Format)
    ensures WithinBudget(0.0, 0.0, 0.0, f)
  {
  }

  lemma NearTermsOfFront(terms: seq<real>, exact: seq<real>, f: Format)
    requires NearTerms(terms, exact, f) && terms != []
    ensures var n := |terms| - 1; NearTerms(terms[..n], exact[..n], f) && NearTerm(terms[n], exact[n], f)
    ensures forall i :: 0 <= i < |exact| ==> exact[i] >= 0.0
  {
    assert forall i :: 0 <= i < |exact| ==> NearTerm(terms[i], exact[i], f);
  }

  lemma BudgetOfFront(n: nat, total: real, f: Format)
    requires n > 0 && total >= 0.0 && Budget(n, total) <= total * Low(f)
    ensures Budget(n - 1, total) <= total * Low(f) && Budget(n, total) == Budget(n - 1, total) + 6.0 * total
  {
  }

  /** The error of a sum of n terms is at most 3n last digits of a bound of the sum. */
  lemma {:induction false} AccumulateError(terms: seq<real>, exact: seq<real>, total: real, round: real -> real,
                                           f: Format)
    requires Rounds(round, f) && NearTerms(terms, exact, f)
    requires Sum(exact) <= total && Budget(|terms|, total) <= total * Low(f)
    ensures Accumulate(terms, round) >= 0.0 && Sum(exact) >= 0.0
    ensures WithinBudget(Accumulate(terms, round), Sum(exact), Budget(|terms|, total), f)
  {
    if terms == [] {
      NoErrorYet(f);
    } else {
      var n := |terms| - 1;
      NearTermsOfFront(terms, exact, f);
      SumIsNotNegative(exact[..n]);
      BudgetOfFront(n + 1, total, f);
      AccumulateError(terms[..n], exact[..n], total, round, f);
      var acc := Accumulate(terms[..n], round);
      var r := round(acc + terms[n]);
      AdditionError(acc, terms[n], r, Sum(exact[..n]), exact[n], total, Budget(n, total), f);
    }
  }

  lemma {:induction false} BudgetGrows(m: nat, n: nat, total: real)
    requires m <= n && total >= 0.0
    ensures Budget(m, total) <= Budget(n, total)
  {
    if m < n { BudgetGrows(m, n - 1, total); }
  }

  lemma LargerBudget(sum: real, exact: real, budget: real, budget': real, f: Format)
    requires WithinBudget(sum, exact, budget, f) && budget <= budget'
    ensures WithinBudget(sum, exact, budget', f)
  {
  }

  lemma MovedFactors(d: real, t: real, budget: real, low: real)
    ensures (-budget) * t == -(budget * t) && d * (2.0 * low) * t == d * t * (2.0 * low)
  {
  }

  lemma BelowHalf(z: real, e: real, b: real, f: Format)
    requires e == z * (2.0 * Low(f)) && -b <= e <= b && b < Low(f)
    ensures -0.5 < z < 0.5
  {
    match f
    case Decimal28 =>
    case Double =>
  }

  predicate SmallError(budget: real, t: real, f: Format) {
    budget * t < Low(f)
  }

  /** An error that is small enough is less than 1/(2t). */
  lemma ErrorTimes(sum: real, exact: real, budget: real, t: real, f: Format)
    requires WithinBudget(sum, exact, budget, f) && t > 0.0 && SmallError(budget, t, f)
    ensures -0.5 < (sum - exact) * t < 0.5
  {
    var d := sum - exact;
    var e := d * (2.0 * Low(f));
    Product(-budget, e, t);
    Product(e, budget, t);
    MovedFactors(d, t, budget, Low(f));
    BelowHalf(d * t, e * t, budget * t, f);
  }
}
