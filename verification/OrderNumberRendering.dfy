/** The text of an order number: "2U-", the year, and the counter padded to six digits. */
module OrderNumberRendering {

  function Digit(d: nat): char
    requires d < 10
  {
    ('0' as int + d) as char
  }

  /** `str(n)` */
  function Digits(n: nat): (s: string)
    ensures s != ""
  {
    if n < 10 then [Digit(n)] else Digits(n / 10) + [Digit(n % 10)]
  }

  function Zeros(k: nat): (s: string)
    ensures |s| == k
  {
    if k == 0 then "" else "0" + Zeros(k - 1)
  }

  /** `s.zfill(width)` */
  function ZFill(s: string, width: nat): string {
    if |s| >= width then s else Zeros(width - |s|) + s
  }

  function Render(year: nat, value: nat): string {
    "2U-" + Digits(year) + ZFill(Digits(value), 6)
  }

  /** Reading a text of digits back as a number. */
  function Value(s: string): int {
    if s == "" then 0 else 10 * Value(s[..|s| - 1]) + (s[|s| - 1] as int - '0' as int)
  }

  lemma {:induction false} ValueOfDigits(n: nat)
    ensures Value(Digits(n)) == n
  {
    if n >= 10 {
      ValueOfDigits(n / 10);
      assert Digits(n)[..|Digits(n)| - 1] == Digits(n / 10);
    }
  }

  lemma {:induction false} LeadingZeros(k: nat, s: string)
    ensures Value(Zeros(k) + s) == Value(s)
    decreases |s|, k
  {
    if s == "" {
      assert Zeros(k) + s == Zeros(k);
      AllZeros(k);
    } else {
      LeadingZeros(k, s[..|s| - 1]);
      assert (Zeros(k) + s)[..k + |s| - 1] == Zeros(k) + s[..|s| - 1];
    }
  }

  lemma {:induction false} AllZeros(k: nat)
    ensures Value(Zeros(k)) == 0
    ensures forall i :: 0 <= i < k ==> Zeros(k)[i] == '0'
  {
    if k > 0 {
      AllZeros(k - 1);
      assert Zeros(k)[..k - 1] == Zeros(k - 1) by {
        assert forall i :: 0 <= i < k ==> Zeros(k)[i] == '0';
      }
    }
  }

  lemma ValueOfPadded(n: nat, width: nat)
    ensures Value(ZFill(Digits(n), width)) == n
  {
    ValueOfDigits(n);
    if |Digits(n)| < width {
      LeadingZeros(width - |Digits(n)|, Digits(n));
    }
  }

  /** Counters of any size, also past six digits: the text determines the year and the counter, for
      years written with equally many digits. */
  lemma RenderInjective(year: nat, value: nat, year': nat, value': nat)
    requires |Digits(year)| == |Digits(year')|
    requires Render(year, value) == Render(year', value')
    ensures year == year' && value == value'
  {
    var s, s' := Render(year, value), Render(year', value');
    var n := 3 + |Digits(year)|;
    assert s[3..n] == Digits(year) && s'[3..n] == Digits(year');
    assert s[n..] == ZFill(Digits(value), 6) && s'[n..] == ZFill(Digits(value'), 6);
    ValueOfDigits(year);
    ValueOfDigits(year');
    ValueOfPadded(value, 6);
    ValueOfPadded(value', 6);
  }

  function TenTo(k: nat): nat {
    if k == 0 then 1 else 10 * TenTo(k - 1)
  }

  lemma {:induction false} DigitsFit(n: nat, k: nat)
    requires k > 0 && n < TenTo(k)
    ensures |Digits(n)| <= k
  {
    if n >= 10 {
      assert k > 1;
      DigitsFit(n / 10, k - 1);
    }
  }

  /** How a number reads: the mark, the year, and the counter in six digits, or more when it has more. */
  lemma RenderReads(year: nat, value: nat)
    requires 1000 <= year <= 9999
    ensures var s := Render(year, value);
            |s| >= 13 && s[..3] == "2U-" && Value(s[3..7]) == year && Value(s[7..]) == value
            && (value < 1_000_000 ==> |s| == 13)
  {
    var s := Render(year, value);
    FourDigitYears(year);
    ValueOfDigits(year);
    ValueOfPadded(value, 6);
    assert s[3..7] == Digits(year) && s[7..] == ZFill(Digits(value), 6);
    if value < 1_000_000 {
      assert TenTo(6) == 1_000_000;
      DigitsFit(value, 6);
    }
  }

  lemma FourDigitYears(year: nat)
    requires 1000 <= year <= 9999
    ensures |Digits(year)| == 4
  {
    assert |Digits(year / 10 / 10 / 10)| == 1;
    assert |Digits(year / 10 / 10)| == 2;
    assert |Digits(year / 10)| == 3;
  }

  lemma AppendDigit(n: nat, d: nat, text: string)
    requires n > 0 && d < 10 && Digits(n) == text
    ensures Digits(10 * n + d) == text + [Digit(d)]
  {
    assert (10 * n + d) / 10 == n && (10 * n + d) % 10 == d;
  }

  /** The equal number of digits is needed: year 202 with counter 5000001 reads like year 2025 with
      counter 1. */
  lemma RenderCollision()
    ensures Render(202, 5000001) == Render(2025, 1)
  {
    AppendDigit(2, 0, "2");
    AppendDigit(20, 2, "20");
    AppendDigit(202, 5, "202");
    AppendDigit(5, 0, "5");
    AppendDigit(50, 0, "50");
    AppendDigit(500, 0, "500");
    AppendDigit(5000, 0, "5000");
    AppendDigit(50000, 0, "50000");
    AppendDigit(500000, 1, "500000");
    assert Digits(5000001) == "5000001" && Digits(1) == "1";
    PadOne();
    assert "202" + "5000001" == "2025" + "000001";
  }

  lemma PadOne()
    ensures ZFill("1", 6) == "000001"
  {
    AllZeros(5);
    assert Zeros(5) == "00000";
  }
}
